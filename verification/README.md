# Verification of a C-- compiler, and of four smaller programs

The main part is the compiler in `编译原理/lab4/Code`: its symbol table, its type checker, the translation to
three-address code, the pass that takes memory operands apart, and the MIPS code generator. Each is modelled in
its own form, and the pieces are joined by one theorem: whatever a source program computes, the MIPS text computes.

## How the compiler is modelled

- **Source.** `Syntax` has the trees, `Layout` sizes and offsets, `Source` a big-step semantics with fuel. A
  store holds integer variables, the scalar parts of structures and arrays, the console, and what reference
  parameters stand for. Whatever C leaves undefined has no meaning (overflow, division by zero, an index out
  of range, an unset variable, the value of a function that falls off its end). Structures are passed by address:
  the callee works on the caller's object.
- **Three-address code.** `Ir` is a small-step machine with call frames. All activations share one memory of
  structures and arrays, which the running activation carries. A call for which the stack has no room ends the run.
- **MIPS.** `Mips` has the instructions that the generator emits, words of 32 bits that trap on overflow, aligned
  memory, and the console. Its branches, arithmetic and division are defined apart from those of the source.
  `CodeGen` is the text that the generator prints, `Frames` the layout it uses. `Corners` is about text that no
  translated program, or only one with very long calls, contains.
- **Translation.** `Translate` and `Format` are the two passes as functions. `Represent`, `Fragments` and `Preserve`
  prove the first pass, by induction on fuel and trees; `FormatOk` proves the second, by a simulation; `Slots`,
  `Blocks`, `Calls`, `Emitted`, `Traffic`, `Simulate` and `Execution` prove code generation, by another. `Static`,
  `Link`, `Reached`, `Declared` and `Arguments` prove what code generation relies on. `Compiler` puts them together.
- **What stands behind the theorem.** `Meaning` proves laws of the source semantics: plain arithmetic for expressions
  without side effects, independence of fuel, loops and branches. `Premises` says exactly when the theorem applies.
  `Reversal` and `Swapping` apply it to two programs and follow their results onto the processor.
- **Code that changes things in place.** `Translator` (counters and the mutable `place`), `CodeList` (the doubly
  linked list), `FrameTable` (frames and variable lists), `Registers` (the register file) and `Generator` (the main
  loop) are classes whose methods are proved against those functions. `Driver` runs them one after the other.
- **Semantic analysis.** `SymbolTable` is the table with its 200 chains and its stack of layers, with the hash on the
  bits of `Bits`; `StructCheck` is the check for repeated members, and `Reports` says which lines it reports.
  `TypeCheck` has the equality of types and the types of expressions, `Typing` the judgement that they follow.

Some predicates are kept folded: they quantify over a dummy `k` with `Unfold(k)`, `Inspect(k)` or `Recall(k)` as the
trigger, so that they open only where a proof asserts `Unfold(0)` and the like. `Common` declares these three.

The other programs: `Printf` is the buffered `printf` of an operating system course, `Executors` the filter,
projection and limit executors of a database course, and `QuickSort` a quicksort that moves a hole.

## What the compiler theorem asks for

`Compiler.CompilerCorrect` asks for four things besides a source run that ends:

- `Measured`: slots have the sizes of their variables, all sizes are multiples of 4, and whatever an instruction
  assigns has a word at least. `Premises.MeasuredExactly` says which programs have such sizes.
- `FewArguments`: no call has more operands than the 18 registers for them, which is a condition on the calls of the
  source program (`Premises.FewAsWritten`).
- `ArgsClear`: among the arguments from the fifth on, no call has both a reference parameter `p` and the first word of
  the structure that `p` refers to. The condition is needed: both operands use one slot and so one register, and
  what is loaded last is stored for both (`Arguments.ClashingExample`, `Calls.ClashExample`). `Calls.HandedExactly`
  says exactly when all arguments arrive, `Static.ClearExactly` which operand lists the condition excludes, and
  `Arguments.ClearAsWritten` that it is a condition on the calls of the source program.
- The boot state: the text is loaded, $sp is aligned, $ra points to the exit (`Premises.BootsExactly`).

## Where the code does not do what it seems to

- The translator takes an index for 0 when the word that an operand shares between its number and its value is 0
  (ir.c:1081), so that temporary 0 would be mistaken for the constant. It never is: `Fragments.ZeroIndex`.
- The layout pass looks only at operands that instructions name directly (code.c:159-195), while the generator also
  loads what stands under GET_VAL and GET_ADDR. Every such operand has a slot all the same:
  `Reached.DereferencedHasSlot`, `Declared.AddressedExactly`.
- READ loads its operand before it reads into it (ir.c:1420-1436), which would lose the input. The translator never
  makes such a READ (`Format.ResultIsWellShaped`, `Compiler.ProgramCodable`).
- A division whose destination is in memory puts the quotient into a register that still holds an address
  (code.c:448-471), so that the quotient is stored at itself (`Corners.QuotientAtItself`). The translator makes no such
  instruction.
- A variable without any bytes (`struct E {}`, `int a[0]`) has the offset of the one laid out before it, so that its
  address is that of another variable (`Frames.EmptySlotOverlaps`). No scalar lies there, and the compiler theorem
  covers it.
- Equality of types is not transitive, because a missing type equals every type: `TypeCheck.TransitiveExactly`.

## Model

| member | source | states |
|---|---|---|
| Compiler.CompilerCorrect | 编译原理/lab4/Code/main.c:72-81 | For every program, every input and every fuel: if the source program runs to its end with result `v` and console exchange `io`, the emitted MIPS text, started as the boot state says, runs to the exit with `v` in $v0 and the same exchange, or it comes to stand in front of a call of the text for whose frame there is no room below $sp. Structures passed by address included. |
| Premises.CallFreeCorrect | 编译原理/lab4/Code/main.c:72-81 | For programs without calls there is no reserve: the emitted text runs to the exit with the result and the exchange of the source program. |
| Premises.FewAsWritten | 编译原理/lab4/Code/code.c:360-377 | The registers suffice for the code of a program if and only if no call of the source program has more than 18 arguments. |
| Premises.FiveSuffice | 编译原理/lab4/Code/code.c:360-377 | Programs whose calls have at most five arguments meet both conditions of the theorem on arguments. |
| Premises.MeasuredExactly | 编译原理/lab4/Code/ir.c:105-136 | There are slot sizes that suit a program if and only if functions of one name agree on shared variables and nothing is assigned that has no room for a word. |
| Premises.BootsExactly | 编译原理/lab4/Code/code.c:391-408 | A program can be started at all if and only if the frame of `main` fits below the greatest address. |
| Reversal.ReversesOnProcessor | 编译原理/lab4/Code/main.c:72-81 | At work: for every n and any n integers, the text compiled from a program with an array and two loops reads them and writes them in the opposite order, and exits with 0. |
| Reversal.ReverserRuns | 编译原理/lab4/Code/ir.c:682-1119 | What that source program does, by its meaning alone. |
| Swapping.SwapsOnProcessor | 编译原理/lab4/Code/main.c:72-81 | At work: a function that is passed a structure exchanges its members for the caller, so that two numbers come out in the opposite order, unless the stack has no room for the call. |
| Swapping.SwapRuns | 编译原理/lab4/Code/ir.c:436-466 | The callee alone, by its meaning: it exchanges the members of the structure that its parameter stands for. |
| Driver.Compile | 编译原理/lab4/Code/main.c:72-81 | Translator, formatting pass and code generator run one after the other, on linked lists and mutable tables, and print exactly the text that `Compiler.CompilerCorrect` is about. |
| Link.ProgramOk | 编译原理/lab4/Code/ir.c:316-325 | Every terminating source run is matched by the three-address code before formatting: same result, same reads and writes in the same order, for any numbering of temporaries and labels. |
| Link.ProgramExactly | 编译原理/lab4/Code/ir.c:316-325 | Where the three-address code halts at all, it halts with the result and the exchange of the source program. |
| Compiler.FormattedOk | 编译原理/lab4/Code/ir.c:316-325 | The same for the code after formatting, in the frames that the layout pass computes from the formatted code. |
| Compiler.FormattedExactly | 编译原理/lab4/Code/ir.c:316-325 | Where the formatted code halts at all, it halts with the result and the exchange of the source program. |
| Preserve.ExpOk | 编译原理/lab4/Code/ir.c:882-1212 | The code of an expression ends at its last instruction in a frame that represents the store after evaluation; the operand it leaves denotes the place that evaluation yields; older temporaries and reference parameters keep their values. |
| Preserve.CondOk | 编译原理/lab4/Code/ir.c:789-869 | Condition code is exact: control reaches the label for true if the condition holds and the label for false if it does not, with the store that short-circuit evaluation leaves. |
| Preserve.StmtOk | 编译原理/lab4/Code/ir.c:682-775 | Statement code runs to its end, or returns to the caller, exactly as the statement does; loops for any number of rounds. |
| Preserve.DecsOk | 编译原理/lab4/Code/ir.c:496-600 | Declarations with initialisers: a new object is empty, a scalar gets its initial value. |
| Preserve.CallOk | 编译原理/lab4/Code/ir.c:995-1031 | A call evaluates its arguments left to right, runs the callee in a frame of its own and continues with the result and with whatever the callee did to the caller's structures. |
| Preserve.UsedAsValue | 编译原理/lab4/Code/ir.c:922-949 | A condition used as a value leaves 1 or 0. |
| Preserve.TestOk | 编译原理/lab4/Code/ir.c:850-868 | A plain value used as a condition is compared with 0. |
| Syntax.CompareSign | 编译原理/lab4/Code/ir.c:789-869 | The six comparisons by the sign of the difference, and how they are each other's opposites. |
| Common.QuotientUnique | 编译原理/lab4/Code/code.c:448-471 | Division is towards zero: `x == y * q + r` with |r| < |y| and r zero or of the sign of x leaves one quotient only. |
| Meaning.PureExactly | 编译原理/lab4/Code/ir.c:882-990 | A source expression without side effects has a value if and only if no result in it, of what is evaluated, leaves 32 bits, no divisor is 0 and its variables are set; then it is that of plain arithmetic and nothing has changed. |
| Meaning.RunDetermined | 编译原理/lab4/Code/ir.c:316-325 | A source program has one meaning: with whatever fuel it ends, result and exchange are the same. |
| Meaning.WhileUnrolls | 编译原理/lab4/Code/ir.c:705-729 | A loop means the same as one round of it followed by the loop, if its condition holds. |
| Meaning.BranchLaws | 编译原理/lab4/Code/ir.c:730-773 | A missing else branch is an empty one; negating the condition exchanges the branches. |
| Meaning.ShortCircuit | 编译原理/lab4/Code/ir.c:789-869 | `&&` means the same as a conditional inside another, `||` what De Morgan's law says, with side effects. |
| Fragments.SubscriptEnd | 编译原理/lab4/Code/ir.c:1033-1119 | Index code, whichever of its branches is taken, leaves the address of exactly the element that the index selects. |
| Fragments.FieldEnd | 编译原理/lab4/Code/ir.c:1121-1197 | Member code, with or without an addition, leaves the address of exactly the member. |
| Fragments.ZeroIndex | 编译原理/lab4/Code/ir.c:1081-1095 | The test of the word that an operand shares between its number and its value never takes an index other than 0 for 0. |
| Fragments.PassOk | 编译原理/lab4/Code/ir.c:209-236 | What is passed for an argument: the value of an integer, the address of a structure, or the address that a reference parameter already holds. |
| Fragments.CalleeStands | 编译原理/lab4/Code/ir.c:436-466 | The frame a call makes represents the store the callee starts with: parameters are bound in order, references point at the caller's objects. |
| Fragments.BackStands | 编译原理/lab4/Code/ir.c:443-446 | After the return the caller's frame represents its store with every change the callee made through references, and no other. |
| Represent.CellsApart | 编译原理/lab4/Code/ir.c:105-136 | Scalars of any two objects of any two live activations lie in disjoint cells. |
| Link.FallsOff | 编译原理/lab4/Code/ir.c:333-424 | A function that ends without RETURN: control goes on over NULL to where the next function begins or the code ends, and there the machine has no step. |
| Link.FunctionCompiled | 编译原理/lab4/Code/ir.c:333-424 | Every function that a call can reach has its code in the program, headed by its FUNC. |
| Static.LabelClosure | 编译原理/lab4/Code/ir.c:58-64 | In the code of a program no label is defined twice and every jump has a target. |
| Static.ProgramOrderly | 编译原理/lab4/Code/ir.c:316-424 | Exactly the labels drawn are defined, each once; jumps go only to them; temporaries stay below the counter; argument runs belong to their calls. |
| Static.ExpTidy | 编译原理/lab4/Code/ir.c:882-1212 | An expression defines exactly the labels it draws, jumps to no others, uses only temporaries below its counter and leaves an operand of one of the few forms that code generation relies on. |
| Static.ArgumentsInFront | 编译原理/lab4/Code/ir.c:995-1031 | The code of a call ends with its CALL, and in front of it stand exactly the operands of its arguments. |
| Arguments.CallsInOrder | 编译原理/lab4/Code/ir.c:1219-1240 | In the list that code is generated from, the CALL instructions are the calls of the source program, in order, and the backward walk from each finds exactly the operands of its own arguments, left to right. |
| Arguments.ClearAsWritten | 编译原理/lab4/Code/ir.c:209-236 | The list has no clash of stack arguments if and only if no call of the source program has. |
| Arguments.ClashingExample | 编译原理/lab4/Code/ir.c:209-236 | A program with such a clash: f(1, 2, 3, 4, p.x, p). |
| Static.QueueBracketed | 编译原理/lab4/Code/ir.c:1219-1240 | Every run of ARG instructions is followed at once by its CALL, and each walk from that call finds that run. |
| Static.ClearExactly | 编译原理/lab4/Code/ir.c:209-236 | Two stack arguments of one call clash if and only if one is a reference parameter and the other the word it refers to. |
| Layout.AccessInBounds | 编译原理/lab4/Code/ir.c:105-136 | A well-typed access path stays inside the bytes of the variable it starts from. |
| Layout.PrefixContains | 编译原理/lab4/Code/ir.c:105-136 | The part a path reaches lies inside the part that any prefix of it reaches. |
| Layout.PathsApart | 编译原理/lab4/Code/ir.c:1033-1197 | Paths neither of which continues the other reach disjoint parts. |
| Layout.ScalarsApart | 编译原理/lab4/Code/ir.c:1033-1197 | Two different scalar paths of a variable have disjoint four-byte cells. |
| Layout.AccessIsAligned | 编译原理/lab4/Code/ir.c:105-136 | Every part starts on a word boundary. |
| Layout.EveryWord | 编译原理/lab4/Code/ir.c:105-136 | Every word of a variable is one of its scalar parts: sizes and offsets could not be smaller. |
| FormatOk.FormatPreserves | 编译原理/lab4/Code/ir.c:1343-1461 | Whatever result and exchange a run reaches before the pass it reaches after it. |
| FormatOk.StepLike | 编译原理/lab4/Code/ir.c:1343-1461 | Each step before the pass is matched by a run after it between states that agree on everything but the pass's own temporaries. |
| FormatOk.ExhaustedLike | 编译原理/lab4/Code/ir.c:1343-1461 | A state in front of an instruction other than NULL is in front of a call without room if and only if its counterpart after the pass is. |
| Format.LabelsKept | 编译原理/lab4/Code/ir.c:1343-1461 | After the pass, too, no label of a program is defined twice and every jump has a target. |
| Format.ArgRunWhole | 编译原理/lab4/Code/ir.c:1343-1461 | The walk back from any place finds after the pass what it finds before it. |
| Format.ResultIsFlat | 编译原理/lab4/Code/ir.c:1343-1461 | No ASSIGN has two memory operands, no IF_GOTO, RETURN, READ or WRITE has any, and NULL survives only as the first instruction. |
| Format.BracketsKept | 编译原理/lab4/Code/ir.c:1343-1461 | After the pass, too, every run of ARG instructions is followed at once by its CALL. |
| CodeList.Formatter.FormatCode | 编译原理/lab4/Code/ir.c:1343-1461 | The pass on the doubly linked list, in place: afterwards the list is again well linked, starts at the same node and holds exactly the specified code; the temporary counter has moved by the temporaries used. |
| CodeList.InsertCode | 编译原理/lab4/Code/ir.c:245-257 | Appending one linked list to another: `prev` and `next` agree everywhere and the contents are concatenated. |
| CodeList.Formatter.Splice | 编译原理/lab4/Code/ir.c:1372-1400 | Putting a node in the middle of the list. |
| CodeList.Formatter.TakeOut | 编译原理/lab4/Code/ir.c:1438-1452 | Taking a node other than the first out of the list. |
| Translator.Translator.TranslateExp | 编译原理/lab4/Code/ir.c:882-1212 | The translator with its counters and the mutable `place` gives the code, operand and type of the specification and moves the counters alike. |
| Translator.Translator.TranslateCondition | 编译原理/lab4/Code/ir.c:789-869 | The same for conditions. |
| Translator.Translator.TranslateStmt | 编译原理/lab4/Code/ir.c:682-775 | The same for statements. |
| Translator.Translator.TranslateProgram | 编译原理/lab4/Code/ir.c:316-424 | The same for programs. |
| Translator.Translator.FindMember | 编译原理/lab4/Code/ir.c:1148-1161 | The loop over the members finds the first of that name and the sum of the sizes before it, or the whole size if there is none. |
| Frames.FrameIsSound | 编译原理/lab4/Code/code.c:133-166 | Distinct operands of a function never share a byte, and every slot lies inside the frame. |
| Frames.FrameCovers | 编译原理/lab4/Code/code.c:159-195 | Every operand that an instruction of the function names directly has a slot. |
| Frames.FrameIsFull | 编译原理/lab4/Code/code.c:133-195 | Every byte of a frame belongs to a slot: the frame could not be smaller. |
| Reached.FrameExactly | 编译原理/lab4/Code/code.c:159-195 | A slot exists for an operand if and only if an instruction of that function names it directly. |
| Reached.DereferencedHasSlot | 编译原理/lab4/Code/code.c:238-248 | Every operand that the formatted code of any program reaches memory through has a slot in its function's frame, although the layout pass never looks inside GET_VAL. |
| Declared.AddressedExactly | 编译原理/lab4/Code/code.c:166-195 | Every parameter and every structure or array that a function declares has a slot; a name that the function uses only by address has one if and only if the function declares it. |
| Declared.UndeclaredExample | 编译原理/lab4/Code/code.c:159-195 | Why the condition is needed: `s = s;` with an undeclared structure gets a slot. |
| Declared.ProgramDeclares | 编译原理/lab4/Code/ir.c:333-600 | The DEC and PARAM instructions of a function are exactly those of the parameters and aggregates that its text declares, at whatever depth. |
| FrameTable.Table.InitFrames | 编译原理/lab4/Code/code.c:166-195 | The pass over the code with its linked frames and variable lists computes, for every function, the layout that the lemmas are about. |
| FrameTable.FrameNode.HandleVariable | 编译原理/lab4/Code/code.c:117-157 | Finds the entry of an operand or adds it below all others. |
| FrameTable.Table.UpdateFramePointer | 编译原理/lab4/Code/code.c:72-85 | The current frame becomes that of the named function, or none if there is none. |
| Registers.RegisterFile.GetRegForVar | 编译原理/lab4/Code/code.c:256-291 | The operand's own register, else the first free one, else, with all 18 taken, that of the least recently used operand, which alone is evicted. |
| Registers.RegisterFile.UpdateRound | 编译原理/lab4/Code/code.c:293-298 | The ages kept in the table are the ages of the history of requests. |
| Registers.OldestIsLeastRecent | 编译原理/lab4/Code/code.c:256-298 | With every register used, exactly one has the greatest age, and it is the least recently used one. |
| Registers.RegisterFile.Free | 编译原理/lab4/Code/code.c:100-105 | All registers are free and the history stays. |
| Corners.WrittenBack | 编译原理/lab4/Code/code.c:256-291 | With all 18 registers taken, the old operand's value is stored in its own slot before the register changes hands, and no other register changes. |
| Generator.Generator.PrintObjectCode | 编译原理/lab4/Code/code.c:347-503 | The whole loop with its register file and frames appends exactly the specified text, for lists whose calls have at most the 22 arguments that the array of argument registers has room for. |
| Generator.Generator.HandleOp | 编译原理/lab4/Code/code.c:215-254 | The code, the register and the new tables for any operand, through any depth of GET_VAL and GET_ADDR, with the write-back if a register must be taken from another operand. |
| Generator.Generator.PassArguments | 编译原理/lab4/Code/code.c:360-377 | The backward walk from a call moves the first four arguments to $a0-$a3 and keeps the registers of the others. |
| Execution.StepMatches | 编译原理/lab4/Code/code.c:347-503 | The simulation: from any matched boundary, what the text of one instruction does to the processor matches what one step does to the three-address machine. |
| Execution.RunMatches | 编译原理/lab4/Code/code.c:347-503 | The same over runs of any length. |
| Execution.CallKeepsStack | 编译原理/lab4/Code/code.c:360-418 | The callee's frame lies wholly below the caller's, and when the run is behind the call with the same activations waiting, $sp, $fp and $ra are what they were, whatever was called in between. |
| Execution.SameStack | 编译原理/lab4/Code/code.c:360-418 | At any two boundaries of one activation $sp, $fp and $ra agree. |
| Execution.ArgumentsArrive | 编译原理/lab4/Code/code.c:360-408 | If no stack arguments clash, parameter i receives argument i, for any number of arguments. |
| Calls.HandedExactly | 编译原理/lab4/Code/code.c:360-390 | Every argument is passed if and only if stack arguments that are reached through one slot have one value. |
| Calls.ClashExample | 编译原理/lab4/Code/code.c:360-390 | A call of six arguments, the fifth of which does not arrive. |
| Calls.CallFrontOk | 编译原理/lab4/Code/code.c:360-385 | The code in front of the jump delivers the arguments and the return address and leaves the caller's frame alone. |
| Calls.FuncOk | 编译原理/lab4/Code/code.c:391-408 | The code of FUNC builds the frame and stores the parameters; memory above is untouched. |
| Calls.LeaveOk | 编译原理/lab4/Code/code.c:409-418 | The code of RETURN gives the frame back and restores $fp. |
| Slots.LoadOk | 编译原理/lab4/Code/code.c:215-254 | Loading an operand brings its value into its register and changes nothing else. |
| Slots.StoreOk | 编译原理/lab4/Code/code.c:439-471 | A store changes what is stored to and nothing else, including objects of waiting activations. |
| Emitted.LookupThere | 编译原理/lab4/Code/code.c:483-493 | A jump to a label or function goes to the text of the instruction that defines it. |
| Mips.JumpsCompare | 编译原理/lab4/Code/code.c:483-493 | A branch, which the processor takes by the sign of the difference of its registers, is taken exactly when the comparison of the source holds. |
| Mips.QuotientTruncates | 编译原理/lab4/Code/code.c:448-471 | The quotient of the processor, formed from magnitudes and signs, is that of C. |
| Mips.WrapExactly | 编译原理/lab4/Code/code.c:448-471 | The cut to 32 bits changes a number by a multiple of 2^32, and exactly the 32-bit integers survive it. |
| Corners.CellResultOk | 编译原理/lab4/Code/code.c:448-471 | An operation other than division whose result goes to memory is right, although no translated program has one. |
| Corners.QuotientAtItself | 编译原理/lab4/Code/code.c:448-471 | A division whose result goes to memory stores the quotient at the address that the quotient is, or traps. |
| Traffic.ReadCall | 编译原理/lab4/Code/code.c:317-345 | The routine `read` prompts, takes one integer and leaves registers and memory above the frame as they were. |
| Traffic.WriteCall | 编译原理/lab4/Code/code.c:317-345 | The routine `write` prints $a0 and a new line and leaves registers and memory above the frame as they were. |
| SymbolTable.Table.SearchAll | 编译原理/lab4/Code/semantic.c:156-170 | The most recently inserted live symbol of that name, or null. |
| SymbolTable.Table.SearchLayer | 编译原理/lab4/Code/semantic.c:173-187 | The most recent symbol of that name in the innermost scope, or null. |
| SymbolTable.Table.Insert | 编译原理/lab4/Code/semantic.c:140-153 | The symbol joins the innermost scope and hides all others of its name. |
| SymbolTable.Table.DelSingle | 编译原理/lab4/Code/semantic.c:1054-1082 | The most recent symbol of that name leaves its chain; all other links stay. |
| SymbolTable.Table.Exit | 编译原理/lab4/Code/semantic.c:217-229 | Exactly the symbols of the innermost scope disappear, even when it holds a name twice. |
| SymbolTable.Table.Enter | 编译原理/lab4/Code/semantic.c:207-214 | A new, empty innermost scope; nothing else changes. |
| SymbolTable.Table.RunBalanced | 编译原理/lab4/Code/semantic.c:207-229 | Any balanced sequence of entering, inserting and leaving restores the 200 chains, the stack of layers and both links of every symbol that was live. |
| SymbolTable.ChainsDetermined | 编译原理/lab4/Code/semantic.c:140-170 | The live symbols, in order, determine all chain heads and links. |
| SymbolTable.HashPjw | 编译原理/lab4/Code/semantic.c:44-56 | The hash loop on 32-bit words gives the specified bucket. |
| SymbolTable.PjwFits | 编译原理/lab4/Code/semantic.c:44-56 | The hash never leaves 14 bits, so nothing wraps around. |
| SymbolTable.MixBits | 编译原理/lab4/Code/semantic.c:44-56 | Each step of the hash, bit by bit: four times the value plus the character, the bits above the 14th folded in twelve places lower. |
| Bits.XorBits | 编译原理/lab4/Code/semantic.c:44-56 | The exclusive or on numbers, by all its bits. |
| SymbolTable.ShortNames | 编译原理/lab4/Code/semantic.c:44-56 | The buckets of all names of up to three characters, as numbers to base 4; single characters reach all 200. |
| SymbolTable.FoundAt | 编译原理/lab4/Code/semantic.c:156-170 | What a search of a chain finds is the first symbol of the name, and that one is removed by a deletion. |
| TypeCheck.CheckerAgrees | 编译原理/lab4/Code/semantic.c:772-994 | A path that the checker gives a type has that very type in the translator, so every offset and size is the checked one. |
| TypeCheck.CheckedType | 编译原理/lab4/Code/semantic.c:772-994 | The object that a checked path denotes at run time has the type the checker gave. |
| TypeCheck.CheckedElement | 编译原理/lab4/Code/semantic.c:772-994 | A checked index expression gets stuck if and only if the index is out of range. |
| TypeCheck.CheckedMember | 编译原理/lab4/Code/semantic.c:772-994 | A checked member access never gets stuck. |
| Typing.CheckedExactly | 编译原理/lab4/Code/semantic.c:772-994 | The checker reports nothing for an expression and gives it type `t` if and only if the expression has type `t` by a typing judgement: operators on integers, assignment to an lvalue of a type alike, calls with fitting arguments, members and elements that exist. |
| Typing.ErrorsBelong | 编译原理/lab4/Code/semantic.c:772-994 | Going on after errors: the number of errors is the number of expressions that are at fault themselves, among those that are looked at. |
| Typing.NoTypeNoSilence | 编译原理/lab4/Code/semantic.c:772-994 | An expression that is left without a type has been reported, itself or in a part. |
| TypeCheck.SameExactly | 编译原理/lab4/Code/semantic.c:235-270 | Two types of programs are equal for the checker if and only if they differ at most in array lengths and member names. |
| TypeCheck.TypeEqualExactly | 编译原理/lab4/Code/semantic.c:235-270 | Types of which nothing is missing are equal for the checker if and only if they are equal in every respect, dimensions and function names included. |
| TypeCheck.SameIsEquivalence | 编译原理/lab4/Code/semantic.c:235-270 | On types of programs the equality is reflexive, symmetric and transitive. |
| TypeCheck.TransitiveExactly | 编译原理/lab4/Code/semantic.c:235-270 | In general it is not transitive: it passes through a type if and only if no part of that type is missing. |
| StructCheck.CheckDupInStruct | 编译原理/lab4/Code/semantic.c:1022-1051 | The nested loops on the linked members leave the first member of every name, report a line for every other one, and report nothing if and only if all names differ. |
| StructCheck.FirstsDiffer | 编译原理/lab4/Code/semantic.c:1022-1051 | No name is left twice. |
| StructCheck.FirstsKept | 编译原理/lab4/Code/semantic.c:1022-1051 | The first member of each name is left. |
| Reports.ReportedExactly | 编译原理/lab4/Code/semantic.c:1022-1051 | Exactly the members whose name an earlier one has are reported, each once and with its own line: names in the order of their first occurrence, members of one name in list order. |
| Printf.Printer.Printf | 操作系统/lab3/lib/syscall.c:62-146 | For every format and argument list the chunks written are the formatted text, cut as the buffer cuts it. |
| Printf.DirectivesPrint | 操作系统/lab3/lib/syscall.c:62-146 | What %d, %x, %s, %c and %% print: the numeral of the next word as a signed or as an unsigned number, the string it points to, its low byte, a percent sign. |
| Printf.PieceByPiece | 操作系统/lab3/lib/syscall.c:62-146 | A format is printed piece by piece: plain characters as they are, each directive as it prints alone, with one argument consumed; an illegal one ends the text. |
| Printf.ChunksTransparent | 操作系统/lab3/lib/syscall.c:62-146 | The chunks joined are the text; every one but the last is full and none is empty. |
| Printf.DecimalRoundTrip | 操作系统/lab3/lib/syscall.c:148-202 | Reading what is printed for any 32-bit integer, the minimum included, gives the integer back; no leading zeros, at most 11 characters. |
| Printf.HexRoundTrip | 操作系统/lab3/lib/syscall.c:204-237 | Reading what is printed for any word gives the word back; no leading zeros, at most 8 digits. |
| Printf.NumeralUnique | 操作系统/lab3/lib/syscall.c:148-237 | No other digit string without leading zeros denotes the same number. |
| Printf.Printer.Dec2Str | 操作系统/lab3/lib/syscall.c:148-202 | The digit loops on signed words, with division towards zero and without overflow, print the decimal numeral. |
| Printf.Printer.Hex2Str | 操作系统/lab3/lib/syscall.c:204-237 | The digit loop prints the hexadecimal numeral. |
| Executors.Executor.Execute | 数据库概论/wsdb/execution/executor.cpp:135-143 | For any tree of filters, projections and limits over a scan, the driver loop ends and sends exactly the records of list algebra, in order, between header and finish. |
| Executors.Executor.Init | 数据库概论/wsdb/execution/executor_filter.cpp:29-42 | Starts over from the first record, also after an earlier run. |
| Executors.Executor.Next | 数据库概论/wsdb/execution/executor_limit.cpp:29-46 | Moves on by exactly one record of the result. |
| Executors.LimitExactly | 数据库概论/wsdb/execution/executor_limit.cpp:29-46 | A limit of n sends the first n rows of its child, all of them if there are fewer, none if n is negative. |
| Executors.LimitOfLimit | 数据库概论/wsdb/execution/executor_limit.cpp:29-46 | Of two limits, in either order, the smaller one counts. |
| Executors.ScanAndProject | 数据库概论/wsdb/execution/executor_projection.cpp:34-54 | A projection sends one image for each row of its child, in order; a scan sends its rows. |
| Executors.FilterBelowProject | 数据库概论/wsdb/execution/executor_projection.cpp:34-54 | A filter that looks only at what a projection keeps may run below it. |
| Executors.KeptInOrder | 数据库概论/wsdb/execution/executor_filter.cpp:29-58 | A filter keeps the order of the rows. |
| Executors.KeptExactly | 数据库概论/wsdb/execution/executor_filter.cpp:29-58 | A filter keeps exactly the rows that satisfy it, as often as they occur. |
| QuickSort.QuickSort | 数字逻辑与计算机组成/实验6 单周期CPU设计与测试/实验6 q-sort/q-sort.c:22-28 | Sorts the range in place into a rearrangement of itself and leaves all other cells alone. |
| QuickSort.Partition | 数字逻辑与计算机组成/实验6 单周期CPU设计与测试/实验6 q-sort/q-sort.c:7-20 | Although the pivot is out of the array while the hole moves, nothing is lost, and the range is split around the pivot. |
| QuickSort.SortDetermined | 数字逻辑与计算机组成/实验6 单周期CPU设计与测试/实验6 q-sort/q-sort.c:22-28 | The result depends only on what the range holds. |

## Left out

- Array parameters, arrays of arrays, floats, global variables, assignment of whole structures or arrays,
  functions that return structures, and `write` used as a value: the compiler refuses them or has no code for
  them.
- Compiler.CompilerCorrect: the slots of temporaries have any sizes that are multiples of 4 and not 0, given by the
  parameter `sizes`, because the code changes the types of temporaries while it runs.
- Compiler.CompilerCorrect: says nothing about runs of the source program that get stuck or do not end.
- Driver.Compile: asks that functions have different names and that reference types belong to parameters, as the
  checker ensures, and that no call has more than 22 arguments, for which the array `arg_reg` has no room;
  parsing, and the calls of semantic analysis in front, are not part of it.
- Declared.AddressedExactly: the second half is about names that are used only by address; an undeclared
  structure that is assigned as a whole would get a slot, and the checker refuses it.
- Execution.StepMatches: is about lists whose calls have an operand for at most each of the 18 registers. For
  more operands `CodeGen` has the text with its write-backs and `Generator` is proved to emit it, but what that
  text does is not judged: a register taken from an earlier stack argument no longer holds that argument.
- Generator.Generator.PassArguments: asks for at most 22 arguments, the room of the array `arg_reg` (code.c:362); with
  more of them the source writes outside the array. So does Generator.Generator.PrintObjectCode.
- One type per name within a function: the translator keeps every symbol it has met, so an inner declaration of
  the same name with another type is outside the model.
- The renaming of functions and labels that clash with instruction names (`changename`): symbols are values of a
  datatype.
- Immediates of any size are taken as pseudo-instructions.
- Executors.Executor.Execute: scans are sequences of records and schemas are functions on records; joins,
  aggregates, index scans, sorting and statements that change tables are not modelled.
- Printf.Printer.Printf: the words on the stack are a total function of the argument's index, and a string
  argument is a Dafny string; formats and strings hold no NUL characters.
- TypeCheck.CheckerAgrees: integers are the only basic type, the parameter types of functions are given, and
  errors are modelled as a missing type and a count, without their texts.
- Typing.CheckedExactly: the name of a function that is used as a variable, for which the checker has a function type,
  counts as undefined.
- Registers.RegisterFile.GetRegForVar: the array of pointers to descriptors is modelled as parallel arrays.
- Translator.Translator.TranslateProgram: code is joined as sequences; the list is built with
  `CodeList.InsertCode` in `Driver.MakeList`. Operands are copied when an instruction is made, where the source
  shares them.
- Code that nothing calls: `optimizeAndRestructureCode`, `resolveComplexOperand`, `addCodeToList`,
  `insertCodeWithTail`, `pushRegsToStack`, `popStackToRegs`; MEM instructions are never made.
- Lexer, parser, printing of trees and of three-address code, files, memory allocation.
