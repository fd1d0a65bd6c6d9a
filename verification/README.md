# Verified model of the nlmon core

nlmon watches Linux netlink traffic. This project models, in Dafny, the parts of it that carry
guarantees, and proves those guarantees for every input, every run or every interleaving:

- the event filter language (parser, bytecode compiler, stack machine, named filters);
- the netlink message layer of its small libnl (attribute streams, message building, the
  request and reply protocol, local port numbers);
- the stateful services (alert rules and history, event pool, event processor, hook
  execution, anomaly baselines).

Code that updates structures in place is modelled by classes and methods with loops, each
proved against a specification function or relation; the theorems are lemmas about those
specifications. Code run by several threads is a transition system over its atomic steps.

| module | part |
|---|---|
| Common, RingBuffer | options, minima; a ring of slots that holds the end of a log |
| FilterAst, FilterCode, FilterMachine | trees and their meaning; code generation; the stack machine and the compiler theorem |
| FilterCompiler, FilterEval | the bytecode builder and the evaluation context with stack and regex cache |
| FilterLexer, FilterGrammar, FilterDerivation, FilterWriter, FilterText | tokens, grammar, the accepted language, writing trees as tokens and text |
| FilterFollows, FilterParser | the parser object against the grammar |
| FilterManager, FilterPipeline | named filters; text to verdict |
| NetlinkAttr, NetlinkMsg, NetlinkRecv, NetlinkWalk | attribute streams, message builder, receive protocol, the bytes of a datagram |
| NetlinkPorts, NetlinkSockets | port bitmap; who owns which port |
| AlertRules, AlertHistory, AlertManager, AlertRuns, AlertCounters | rate limit and suppression; history ring and counters; the manager; runs of its calls; the counters between its critical sections |
| EventPool, RingQueue, RingOverlap | pool; the lock-free ring; threads that overlap in its calls |
| EventProcessor, ProcessorRing, ProcessorOverlap | submitters and workers; over the ring; and when they overlap in its calls |
| EventHooks, HookStats | hook execution; its statistics |
| AnomalyBaseline | baselines |

## Where the code parts from its documentation

The model follows the code.

- The grammar in the header of the parser asks for at least one list item and for commas
  between items; the code accepts empty lists, missing commas and a trailing comma
  (`LooseLists`). `ExprExactly` says exactly which token sequences it accepts.
- A string literal is cut short when it contains a backslash (`BackslashCut`), and an
  unterminated literal is accepted (`UnterminatedTaken`). `LiteralReadBack` says exactly which
  literals are read back.
- Walking an attribute area can leave it when its length is not a multiple of 4, because the
  remaining length is compared unsigned. `StaysInsideExactly` says for which lengths it cannot,
  and `NetlinkWalk.StaysExactly` the same for the messages of a datagram.
- An attribute whose payload does not fit its 16-bit length is still put.
  `ReadsBackExactly` says exactly which are read back.
- `nl_wait_for_ack` is documented to wait for the ack; it can return before it
  (`WaitReturnsEarly`). `WaitForAckExactly` says exactly when it does wait.
- `nl_socket_set_local_port` with port 0 forgets a number the socket already has.
  `NetlinkSockets.EveryRun` says exactly which runs keep the bitmap in step with the live
  sockets; `LeakExample` is one that does not, and `MarkerLeakExample` another, in which a
  generated port is taken for the failure marker.
- The event ring is documented for a single producer and a single consumer; the event processor
  enqueues from any thread and dequeues from every worker. `FirstInFirstOut` holds for any
  number of threads as long as every entry into a call is harmless: each other thread in it has
  found the ring full or empty and can only leave, or is late, having loaded the head of an
  empty ring that has two items or more by now. `RingOverlap.BreaksExactly` says that these
  are exactly the safe entries: after any other the order can be lost without a further one.
  `ItemTakenTwice` and `ItemLost` are runs in which it is. `RunProjects` and
  `ProcessorOverlap.BreaksExactly` carry both halves over to the processor, where
  `TwoWorkersOneEvent` is a run with one event in two hands and `EventLost` one with an event
  in none.
- The capacity of the ring is rounded up to a power of two, which above 2 to the 63 there is none
  of: it comes out as 0 (`CapacityOverflows`).
- A hook's executions are meant to be its successes, timeouts and failures. Registering a hook
  clears its slot without the mutex of the statistics, so this fails after a registration in
  a slot with an execution still to be counted (`SuccessWithoutExecution`), and
  `FaithfulExactly` says that it fails then only.
- Unit tests of the parser expect no result for invalid text; the code returns a result that is
  marked invalid.

## Model

| member | source | states |
|---|---|---|
| FilterAst.StrCmpIsOrder | src/core/filter_eval.c:551-584 | string comparison is zero exactly on equal strings and antisymmetric |
| FilterAst.StrCmpTransitive | src/core/filter_eval.c:551-584 | string comparison is transitive |
| FilterAst.CompareValuesIsOrder | src/core/filter_eval.c:551-584 | on two strings or two numbers the six comparisons are one total order and its negations; on mixed types or booleans all are false |
| FilterCode.IndexOf | src/core/filter_compiler.c:53-76 | the index is that of the first equal string, or the table's end |
| FilterCode.GenTable | src/core/filter_compiler.c:53-245 | code generation only extends the string table, keeps it free of repeats and adds exactly the literals of the tree |
| FilterCode.ProgramTable | src/core/filter_compiler.c:53-76 | a program's string table has no repeats and is exactly the set of the tree's literals |
| FilterCode.PatchedCode | src/core/filter_compiler.c:96-148 | emitting a jump with offset 0 and patching it afterwards gives the code with the jump over the right operand |
| FilterCode.GenShape | src/core/filter_compiler.c:96-245 | in all generated code every jump is strictly forward and lands inside or just after it, and every string index is in the table |
| FilterCode.ProgramShape | src/core/filter_compiler.c:293-322 | a program is such code followed by its one RETURN |
| FilterCode.JumpZerosNone | src/core/filter_compiler.c:248-263 | the optimiser's count is zero exactly when there is no jump by 0 |
| FilterCode.PeepholeChanges | src/core/filter_compiler.c:248-263 | the peephole pass changes code exactly when its count is positive, and never code the machine can run |
| FilterMachine.GenSimulates | src/core/filter_eval.c:597-803 | anywhere in a larger program and on any stack, the code of a tree pushes the tree's meaning and continues after it, or aborts where the meaning is missing, within the tree's depth |
| FilterMachine.ProgramCorrect | src/core/filter_compiler.c:53-361 | running the program of any tree that compiles returns exactly its meaning on an empty stack or aborts on a missing field, the verdict is acceptance, no pop underflows and the stack never exceeds the structural depth |
| FilterMachine.OptimizedProgramCorrect | src/core/filter_compiler.c:346-361 | the same verdict after optimisation |
| FilterCompiler.Bytecode.constructor | src/core/filter_compiler.c:13-35 | new bytecode is empty |
| FilterCompiler.Bytecode.Emit | src/core/filter_compiler.c:37-51 | one instruction is appended |
| FilterCompiler.Bytecode.AddString | src/core/filter_compiler.c:53-76 | the index of the string's first occurrence; the table grows only by a new string |
| FilterCompiler.Bytecode.CompileNode | src/core/filter_compiler.c:175-245 | succeeds exactly on trees whose lists stand right of IN and whose INs have a list, and then appends exactly the tree's code; on failure earlier code and strings stay |
| FilterCompiler.Bytecode.CompileBinaryOp | src/core/filter_compiler.c:80-94 | the same for a comparison |
| FilterCompiler.Bytecode.CompileLogicalAnd | src/core/filter_compiler.c:96-121 | the same for AND, whose jump is patched in place |
| FilterCompiler.Bytecode.CompileLogicalOr | src/core/filter_compiler.c:123-148 | the same for OR |
| FilterCompiler.Bytecode.CompileInOp | src/core/filter_compiler.c:150-173 | the same for IN, refused without a list |
| FilterCompiler.Bytecode.CompileItems | src/core/filter_compiler.c:150-173 | items are compiled in order; succeeds exactly when each compiles |
| FilterCompiler.Bytecode.Optimize | src/core/filter_compiler.c:346-361 | the instructions become those of the peephole pass and the reported total is the number of jumps by 0 it looked at |
| FilterCompiler.FilterCompile | src/core/filter_compiler.c:293-322 | bytecode exists exactly for valid, compilable expressions and is the tree's program |
| FilterEval.EvalContext.constructor | src/core/filter_eval.c:806-842 | a new context has an empty stack and a sound, empty cache |
| FilterEval.EvalContext.Push | src/core/filter_eval.c:24-38 | the value goes on top |
| FilterEval.EvalContext.PopValue | src/core/filter_eval.c:40-47 | the top value comes off, or nothing from an empty stack |
| FilterEval.EvalContext.PopOperands | src/core/filter_eval.c:661-679 | right then left operand come off; fails with fewer than two |
| FilterEval.EvalContext.GetCompiledRegex | src/core/filter_eval.c:67-103 | answers the library's compilation of the pattern whatever the cache holds, keeps each entry the compilation of its own pattern and patterns distinct, and grows by one only for a new pattern that compiles |
| FilterEval.EvalContext.MatchRegex | src/core/filter_eval.c:586-594 | the library's match, cache or not |
| FilterEval.EvalContext.CompareOrMatch | src/core/filter_eval.c:661-679 | the operator's meaning on its operands |
| FilterEval.EvalContext.PopMembership | src/core/filter_eval.c:681-724 | whether the value below equals one of the count values on top; all come off |
| FilterEval.EvalContext.Interpret | src/core/filter_eval.c:608-790 | one instruction does what the machine's step says to program counter, stack and verdict |
| FilterEval.EvalContext.EvalBytecode | src/core/filter_eval.c:597-803 | the interpreter loop ends and its answer is the verdict of the machine's run |
| FilterEval.FilterEval | src/core/filter_eval.c:868-898 | the answer is that of a run on an empty stack whatever context is given, also after aborted evaluations, and the cache stays sound |
| FilterEval.EvalProgram | src/core/filter_eval.c:868-898 | evaluating a tree's program answers whether the tree's meaning accepts the event |
| FilterLexer.LineAndColumn | src/core/filter_parser.c:282-297 | the line is one more than the newlines before the position and the column counts from the last of them |
| FilterLexer.Stream | src/core/filter_parser.c:372-511 | the token stream of any text ends, with one final token, which is its last |
| FilterLexer.ScanCount | src/core/filter_parser.c:326-350 | the string reader stops at the quote or the end, and counts all characters exactly when there was no backslash before |
| FilterLexer.LiteralReadBack | src/core/filter_parser.c:326-350 | a quoted literal is read back whole if and only if it has no backslash, quote or NUL, or ends the text with one backslash that swallows its closing quote |
| FilterLexer.BackslashCut | src/core/filter_parser.c:326-350 | a literal of three characters with a backslash in the middle is read as its first two |
| FilterLexer.UnterminatedTaken | src/core/filter_parser.c:326-350 | a literal without closing quote is read as if it had one |
| FilterGrammar.Grammar.Primary | src/core/filter_parser.c:582-681 | success consumes at least one token, failure leaves a rest of the stream |
| FilterGrammar.Grammar.Items | src/core/filter_parser.c:612-673 | the list loop ends and leaves a rest of the stream |
| FilterGrammar.Grammar.CmpExpr | src/core/filter_parser.c:683-734 | as for a primary |
| FilterGrammar.Grammar.NotExpr | src/core/filter_parser.c:736-747 | as for a primary |
| FilterGrammar.Grammar.AndExpr | src/core/filter_parser.c:749-772 | as for a primary |
| FilterGrammar.Grammar.OrExpr | src/core/filter_parser.c:774-797 | as for a primary |
| FilterGrammar.Grammar.Parse | src/core/filter_parser.c:805-849 | valid exactly without an error, and a valid result has a tree |
| FilterGrammar.DigitsRoundTrip | src/core/filter_parser.c:352-370 | the decimal digits of a number read back as that number |
| FilterDerivation.ExprReads | src/core/filter_parser.c:582-802 | any derivation, with optional commas and redundant parentheses, is read up to a token that cannot continue an expression, and gives its tree |
| FilterDerivation.ExprDerived | src/core/filter_parser.c:582-802 | whatever is parsed successfully has a derivation that yields exactly the tokens consumed and has the tree returned |
| FilterDerivation.ExprExactly | src/core/filter_parser.c:582-802 | a token sequence parses to a tree with nothing left over if and only if the tree has a derivation with these tokens |
| FilterDerivation.ParseExactly | src/core/filter_parser.c:805-849 | a text is valid if and only if its tokens are derived, and then its tree is that of every such derivation |
| FilterDerivation.Unambiguous | src/core/filter_parser.c:582-802 | derivations of the same tokens have the same tree |
| FilterDerivation.LooseLists | src/core/filter_parser.c:612-673 | any operands make a list, none included, each followed by a comma or not |
| FilterWriter.RoundTrip | src/core/filter_parser.c:582-802 | any writable tree, written as tokens with parentheses only where precedence asks for them, parses back to itself and uses every token |
| FilterWriter.WriteInjective | src/core/filter_parser.c:582-802 | no two writable trees are written alike |
| FilterText.LexSpelled | src/core/filter_parser.c:372-511 | every token with a spelling is read from its spelling |
| FilterText.StreamRendered | src/core/filter_parser.c:372-511 | tokens rendered as text are read back in order |
| FilterText.TextRoundTrip | src/core/filter_parser.c:805-849 | the text of a writable tree parses as valid, without error, to that tree |
| FilterFollows.ParseFollows | src/core/filter_parser.c:805-849 | a parser that follows the grammar has an error exactly when it has no tree, and its result is the grammar's, error position included |
| FilterParser.Parser.constructor | src/core/filter_parser.c:261-267 | the parser stands before the first token, at position 0, without error |
| FilterParser.Parser.AdvanceChar | src/core/filter_parser.c:282-297 | steps over one character and keeps line and column those of the position |
| FilterParser.Parser.SkipWhitespace | src/core/filter_parser.c:299-303 | stands at the first character that is not white space |
| FilterParser.Parser.ReadIdentifier | src/core/filter_parser.c:305-324 | the longest run of identifier characters |
| FilterParser.Parser.ReadString | src/core/filter_parser.c:326-350 | the text and end of the reference scan, escapes included |
| FilterParser.Parser.ReadNumber | src/core/filter_parser.c:352-370 | the longest run of digits |
| FilterParser.Parser.ScanToken | src/core/filter_parser.c:372-511 | the token and end of the reference lexer |
| FilterParser.Parser.NextToken | src/core/filter_parser.c:372-511 | what is left is the token stream from the position on; errors stay |
| FilterParser.Parser.SetError | src/core/filter_parser.c:88-98 | the first error is kept, with the line and column of the current token |
| FilterParser.Parser.Consume | src/core/filter_parser.c:573-580 | one token goes and the stream gets shorter |
| FilterParser.Parser.ParsePrimary | src/core/filter_parser.c:582-681 | tree, rest, error and its position are those of the grammar |
| FilterParser.Parser.ParseParenthesised | src/core/filter_parser.c:600-611 | the same after an opening parenthesis |
| FilterParser.Parser.ParseList | src/core/filter_parser.c:612-673 | the same after an opening bracket |
| FilterParser.Parser.ParseCmpExpr | src/core/filter_parser.c:683-734 | the same for comparisons |
| FilterParser.Parser.ParseNotExpr | src/core/filter_parser.c:736-747 | the same for NOT |
| FilterParser.Parser.ParseAndExpr | src/core/filter_parser.c:749-772 | the same for the AND loop |
| FilterParser.Parser.ParseOrExpr | src/core/filter_parser.c:774-797 | the same for the OR loop |
| FilterParser.Parser.ParseExpr | src/core/filter_parser.c:799-802 | the same for whole expressions |
| FilterParser.FilterParse | src/core/filter_parser.c:805-849 | the result is the grammar's for every text; the tree is missing exactly when an error other than trailing input was recorded |
| FilterManager.Build | src/core/filter_manager.c:42-97 | code exists exactly for expressions that parse and compile, and is their program |
| FilterManager.FilterEntry.Evaluate | src/core/filter_manager.c:308-333 | the verdict of an entry's code is the meaning of its own expression; counters move accordingly |
| FilterManager.FilterManager.Find | src/core/filter_manager.c:17-27 | finds a filter exactly when one has the name |
| FilterManager.FilterManager.Add | src/core/filter_manager.c:148-177 | succeeds exactly for a new name and a usable expression and puts the filter first; otherwise nothing changes; names stay unique and the count stays the length |
| FilterManager.FilterManager.Remove | src/core/filter_manager.c:179-207 | takes out exactly the named filter and keeps the order of the rest |
| FilterManager.FilterManager.Update | src/core/filter_manager.c:218-268 | replaces the named expression and its code together and clears its counters, or changes nothing |
| FilterManager.FilterManager.SetEnabled | src/core/filter_manager.c:270-306 | switches exactly the named filter |
| FilterManager.FilterManager.Eval | src/core/filter_manager.c:308-333 | answers the meaning of the named, enabled expression, false otherwise; only its counters move |
| FilterManager.FilterManager.EvalAll | src/core/filter_manager.c:335-358 | the number of enabled filters whose meaning accepts the event, and the first max of their names in list order |
| FilterPipeline.WrittenFilter | src/core/filter_manager.c:42-97 | from tree to text, tokens, tree, bytecode, optimisation and machine: the text of a tree is usable, and the machine's verdict on its optimised program is acceptance by the tree, for every event |
| NetlinkAttr.AlignedStaysInside | libnl/attr.c:401-432 | walking an area whose length is a multiple of 4 never reads outside it |
| NetlinkAttr.StaysInsideExactly | libnl/attr.c:401-432 | the lengths for which no contents make the walk leave the area are exactly those below 4 and the multiples of 4 |
| NetlinkAttr.EncodeHeader | libnl/attr.c:401-432 | an encoded attribute in any surroundings is accepted, read back and stepped over exactly |
| NetlinkAttr.AreaRoundTrip | libnl/attr.c:401-432 | the attributes read from an area of encoded attributes are those encoded, in order |
| NetlinkAttr.ValidateNlaExact | libnl/attr.c:446-481 | an attribute passes exactly when it meets its policy, and the string error arises exactly for a nonempty string without final NUL |
| NetlinkAttr.StreamCodeExact | libnl/attr.c:555-570 | a stream passes exactly when every attribute meets its policy |
| NetlinkAttr.NlaValidate | libnl/attr.c:555-570 | the code is that of the first attribute that fails, or 0 |
| NetlinkAttr.NlaParse | libnl/attr.c:502-536 | the same code as validation; on success the index has for each type the last attribute of that type and nothing else, on failure that of the attributes before |
| NetlinkAttr.NlaFind | libnl/attr.c:584-594 | the first attribute of the type, or none exactly when there is none |
| NetlinkMsg.NlMsg.constructor | libnl/msg.c:258-284 | a new message is its header alone |
| NetlinkMsg.NlMsg.Append | libnl/msg.c:406-453 | appends data and zero padding, or changes nothing exactly when they do not fit |
| NetlinkMsg.NlMsg.Reserve | libnl/attr.c:618-641 | succeeds exactly when header and aligned payload fit; then the buffer is exactly the old one with header and padding written, the padding where the 16-bit length puts it, and the length stays within the buffer |
| NetlinkMsg.NlMsg.Put | libnl/attr.c:657-670 | nothing changes when it does not fit; otherwise the buffer is exactly that of the reservation with the payload copied behind the header, which up to 65531 bytes is the encoded attribute |
| NetlinkMsg.ReadsBackExactly | libnl/attr.c:618-670 | whatever was in the buffer, an attribute that was put reads back as itself if and only if its payload has at most 65531 bytes |
| NetlinkMsg.PutAllKept | libnl/attr.c:618-670 | after any puts the message is the old one and the encoding of exactly the puts that fitted, never longer than the buffer |
| NetlinkMsg.BuiltStream | libnl/attr.c:502-670 | reading any built stream gives the attributes put, in order; a full index has each type's last payload |
| NetlinkRecv.HandleAnswer | libnl/nl.c:525-662 | handling a datagram that answers the oldest request never mismatches, delivers exactly its data messages, and advances the expected number by one exactly when the answer ends |
| NetlinkRecv.ReceiveReadsOn | libnl/nl.c:500-683 | one receive call reads whole datagrams in order and delivers exactly their data |
| NetlinkRecv.SendKeepsInv | libnl/nl.c:298-322 | sending keeps the protocol invariant |
| NetlinkRecv.ReplyKeepsInv | libnl/nl.c:500-683 | an answer of the kernel keeps it |
| NetlinkRecv.ReceiveKeepsInv | libnl/nl.c:500-683 | receiving keeps it and never reports a sequence mismatch |
| NetlinkRecv.RunKeepsInv | libnl/nl.c:298-683 | so does every sequence of sends, answers and receives |
| NetlinkRecv.EveryRun | libnl/nl.c:298-683 | in every run from any start number the pending requests are s_seq_expect up to s_seq_next, the next receive does not mismatch, and what came to VALID are exactly the data messages of the datagrams read, in order, each while its request was the oldest |
| NetlinkRecv.WaitForAckExactly | libnl/nl.c:709-736 | waiting reads up to the ack if and only if no datagram of the answer comes before it or the first of them opens a multipart series; otherwise it returns early |
| NetlinkRecv.WaitReturnsEarly | libnl/nl.c:709-736 | a data message outside a multipart series before the ack makes the wait return with the ack unread |
| NetlinkRecv.NlSocket.constructor | libnl/socket.c:82 | both sequence numbers start equal |
| NetlinkRecv.NlSocket.SendAutoComplete | libnl/nl.c:298-322 | a message without number gets the next one and advances it; a numbered one changes nothing |
| NetlinkRecv.NlSocket.Check | libnl/nl.c:542-562 | the message is refused, and the loop goes where, exactly as the reference says from the MSG_IN, SEQ_CHECK and INVALID callbacks and the expected number |
| NetlinkRecv.NlSocket.HandleMessage | libnl/nl.c:525-661 | socket, multipart flag and control flow after one message are those of the reference step |
| NetlinkRecv.NlSocket.HandleDatagram | libnl/nl.c:525-662 | the loop over a datagram is the fold of that step |
| NetlinkRecv.NlSocket.Recvmsgs | libnl/nl.c:500-683 | the outer loop is the reference receive, error code included |
| NetlinkWalk.AlignedStays | libnl/msg.c:188-212 | walking a datagram whose length is a multiple of 4 never steps past its end |
| NetlinkWalk.StaysExactly | libnl/msg.c:188-212 | the lengths for which no contents make the walk leave the datagram are exactly those below 16 and the multiples of 4 |
| NetlinkWalk.WireRoundTrip | libnl/msg.c:188-212 | walking a datagram of encoded messages finds exactly these messages, in order, with all header fields and payloads |
| NetlinkWalk.Walk | libnl/nl.c:520-662 | the loop with its remaining length finds exactly the messages of the reference walk |
| NetlinkWalk.ReplyBytes | libnl/nl.c:520-662 | the bytes of an encoded answer to the oldest request are handled without a mismatch, their data messages come to VALID one by one, and the expected number advances exactly when the answer ends |
| NetlinkPorts.PortCarriesNumber | libnl/socket.c:25-63 | a port carries its number, and looks like the failure marker only for number 1023 and a process id with 22 low ones |
| NetlinkPorts.TakenSet | libnl/socket.c:39-46 | setting a bit adds exactly its number to the used ones |
| NetlinkPorts.TakenClear | libnl/socket.c:54-63 | clearing a bit removes exactly its number |
| NetlinkPorts.FirstFree | libnl/socket.c:32-48 | the first clear bit of the first word that is not full is the lowest free number |
| NetlinkPorts.PortMap.Generate | libnl/socket.c:27-52 | the port of the lowest free of the 1024 numbers, which is then used; fails, changing nothing, exactly when all are used |
| NetlinkPorts.PortMap.Release | libnl/socket.c:54-63 | exactly the port's number is free again; the failure marker changes nothing |
| NetlinkSockets.NextKeepsInv | libnl/socket.c:70-196 | alloc, free and set_local_port, for any handles, ports and process ids, keep every live generated number marked and no two sockets sharing one |
| NetlinkSockets.NextExact | libnl/socket.c:70-196 | from an exact bitmap, a call leaves it exact if and only if it is neither a request for a generated port by a socket that has one nor a generated port equal to the failure marker |
| NetlinkSockets.NeverRepaired | libnl/socket.c:70-196 | a number that is marked but lost stays lost |
| NetlinkSockets.EveryRun | libnl/socket.c:70-196 | in every run no two live sockets share a generated number, and the set bits are exactly the live generated numbers if and only if no call of the run leaked |
| NetlinkSockets.LeakExample | libnl/socket.c:184-196 | a run of two calls after which a bit is set for no socket |
| NetlinkSockets.MarkerLeakExample | libnl/socket.c:27-90 | a run in which 1023 sockets are allocated with an exact bitmap, and the next allocation fails and sets the last bit for no socket |
| NetlinkSockets.ReleaseUndoesGenerate | libnl/socket.c:27-63 | releasing a generated port restores the bitmap, save for the failure marker |
| NetlinkSockets.SocketTable.Alloc | libnl/socket.c:70-90 | a socket with a generated port, or failure exactly when no usable port is left |
| NetlinkSockets.SocketTable.Free | libnl/socket.c:129-142 | the socket goes, and its number with it unless the port was its own |
| NetlinkSockets.SocketTable.SetLocalPort | libnl/socket.c:184-196 | the socket's port and the bitmap follow the call relation |
| RingBuffer.Append | src/core/alert_manager.c:597-600 | writing at the position keeps slot k mod m holding entry k of the last m entries |
| RingBuffer.Amend | src/core/alert_manager.c:675-681 | changing a kept entry in its slot changes only that entry |
| AlertRules.RefusesByLog | src/core/alert_manager.c:577-594 | the ring of trigger times refuses exactly when the full log of past triggers would |
| AlertRules.TriggerKeeps | src/core/alert_manager.c:577-601 | recording an allowed trigger keeps ring and log in step, the log sorted, and any limit + 1 successive triggers more than the window apart |
| AlertRules.RunKeeps | src/core/alert_manager.c:548-662 | so does every run of events, suppressions and switches with a clock that does not go back |
| AlertRules.SlidingWindow | src/core/alert_manager.c:577-601 | in every such run no span of the window's length, both ends included, holds more than the limit of triggers |
| AlertRules.RefusedExactly | src/core/alert_manager.c:559-594 | after every such run an event the rule is on, awake and matched for is refused exactly when the full log has the limit of triggers in the window, and otherwise triggers and is logged; any other event does neither |
| AlertRules.TriggersApart | src/core/alert_manager.c:566-570 | without suppression by hand, successive triggers are at least the suppression time apart |
| AlertRules.DecidedByLog | src/core/alert_manager.c:559-601 | without suppression by hand, a matching event triggers an enabled rule exactly when the last trigger is at least the suppression time ago and the log has fewer than the limit of triggers in the window |
| AlertHistory.DoAgrees | src/core/alert_manager.c:603-735 | raising, acknowledging and resolving keep the ring holding the last alerts and the counters counting the states of all alerts ever raised; a call finds an alert exactly when it is in the ring in a fitting state |
| AlertHistory.RunAgrees | src/core/alert_manager.c:603-735 | so in every run |
| AlertHistory.Conservation | src/core/alert_manager.c:603-735 | in every run the alerts triggered equal active plus acknowledged plus successful resolves |
| AlertHistory.RingHoldsLast | src/core/alert_manager.c:624-644 | in every run alert id is in slot (id - 1) mod capacity for each of the last capacity ids, and the filled slots have no others |
| AlertHistory.FoundExactly | src/core/alert_manager.c:664-735 | acknowledging or resolving succeeds exactly when the id is one of those and its slot is in a fitting state |
| AlertManager.TurnsIndependent | src/core/alert_manager.c:558-661 | an event tries each rule once on that rule's own earlier state, changes no other slot, and changes the history by raising one alert for each rule that triggers |
| AlertRuns.StepSound | src/core/alert_manager.c:393-907 | every call leaves every rule well formed |
| AlertRuns.Through | src/core/alert_manager.c:393-907 | so every state of every run of manager calls is well formed, and no run is excluded |
| AlertRuns.RuleTold | src/core/alert_manager.c:393-907 | after any run of manager calls the rule in a slot is where its own acts bring a fresh rule, and its log has exactly the times the run triggered it |
| AlertRuns.SlidingWindow | src/core/alert_manager.c:393-907 | in every run of manager calls no rule triggers more than its limit in any span of its window |
| AlertRuns.TriggersApart | src/core/alert_manager.c:393-907 | in every run of manager calls without suppression by hand, each rule's triggers are at least its suppression time apart |
| AlertRuns.Conservation | src/core/alert_manager.c:548-735 | in every run of manager calls the alerts triggered equal active plus acknowledged plus successful resolves |
| AlertRuns.RingHoldsLast | src/core/alert_manager.c:548-735 | in every run of manager calls alert id is in slot (id - 1) mod capacity for each of the last capacity ids, and the filled slots have no others |
| AlertRuns.FoundExactly | src/core/alert_manager.c:664-735 | after every run of manager calls acknowledging succeeds exactly on a kept active alert, and resolving exactly on a kept one not yet resolved |
| AlertCounters.Conservation | src/core/alert_manager.c:615-735 | with acknowledging and resolving between the critical sections of an evaluation, the triggers counted equal active plus acknowledged plus successful resolves, and one more exactly between counting a trigger and storing its alert |
| AlertManager.AlertManager.constructor | src/core/alert_manager.c:318-362 | no rules, an empty history, default sizes for 0 |
| AlertManager.AlertManager.Find | src/core/alert_manager.c:473-478 | finds a rule exactly when one has the id |
| AlertManager.AlertManager.AddRule | src/core/alert_manager.c:393-461 | fails exactly on an empty name or condition, an unusable condition or full slots, and then changes no rule; otherwise the first free slot has the rule under a new id |
| AlertManager.AlertManager.RemoveRule | src/core/alert_manager.c:463-496 | frees exactly the slot of that rule |
| AlertManager.AlertManager.Adjust | src/core/alert_manager.c:498-907 | enabling, disabling, suppressing and unsuppressing change exactly the named rule, as the rule's own step says |
| AlertManager.AlertManager.TriggersInWindow | src/core/alert_manager.c:581-585 | counts the recorded times in the window |
| AlertManager.AlertManager.TryRule | src/core/alert_manager.c:559-601 | the rule's new state and outcome are those of the reference attempt, with the condition's meaning as the match |
| AlertManager.AlertManager.RaiseAlert | src/core/alert_manager.c:603-647 | ring and counters become those of the reference; executed plus failed stays equal to triggered |
| AlertManager.AlertManager.EvaluateRule | src/core/alert_manager.c:558-660 | one rule's turn is the reference turn |
| AlertManager.AlertManager.Evaluate | src/core/alert_manager.c:548-662 | the loop is the turns of all slots in order |
| AlertManager.AlertManager.FindInstance | src/core/alert_manager.c:675-679 | the first filled slot the call applies to |
| AlertManager.AlertManager.Acknowledge | src/core/alert_manager.c:664-698 | history, counters and answer are those of the reference |
| AlertManager.AlertManager.Resolve | src/core/alert_manager.c:700-735 | history, counters and answer are those of the reference |
| EventPool.TakeInv | src/core/event_processor.c:121-144 | an event taken is in nobody's hands; free slots, events out and events released stay disjoint, without repeats, and together all events made |
| EventPool.GiveInv | src/core/event_processor.c:146-178 | the same for an event given back, to a slot or to the heap |
| EventPool.RunInv | src/core/event_processor.c:63-189 | so in every run |
| EventPool.Quiescent | src/core/event_processor.c:106-119 | when nothing is out all slots are filled, and releasing them has released every event ever made exactly once |
| EventPool.EventPool.constructor | src/core/event_processor.c:63-104 | all slots filled with new, distinct events |
| EventPool.EventPool.Alloc | src/core/event_processor.c:121-144 | an event nobody has, from the top slot or new |
| EventPool.EventPool.Free | src/core/event_processor.c:146-178 | the event goes to the next slot, or to the heap when all are filled |
| EventPool.EventPool.Destroy | src/core/event_processor.c:106-119 | releases every slot; with nothing out, each event made has been released exactly once |
| RingQueue.CapacityRounded | src/core/ring_buffer.c:13-29 | up to 2 to the 63 the capacity is a power of two, large enough, and half of it is not |
| RingQueue.CapacityOverflows | src/core/ring_buffer.c:13-29 | above that it is 0 |
| RingQueue.MaskWraps | src/core/ring_buffer.c:85-85 | masking steps an index and wraps it at the end |
| RingQueue.StepKeeps | src/core/ring_buffer.c:73-145 | every load and store of any of the threads keeps the ring in order as long as entries are harmless: every other thread in the call has found the ring full or empty, or loaded the head of an empty ring that has two items by now |
| RingQueue.StepRefines | src/core/ring_buffer.c:73-145 | then the loads and stores carry out the steps of an atomic queue |
| RingQueue.FirstInFirstOut | src/core/ring_buffer.c:73-145 | in every interleaving of the loads and stores of any number of threads in which every entry is harmless, the items returned are the items put, each once and in order, up to those the size counts, and at most capacity - 1 are queued |
| RingQueue.RefusedExactly | src/core/ring_buffer.c:80-92 | under that condition an item is refused exactly when the ring was full by the positions loaded, and none returned exactly when it was empty by them |
| RingQueue.Ring.constructor | src/core/ring_buffer.c:32-62 | an empty ring |
| RingQueue.Ring.Enqueue | src/core/ring_buffer.c:73-114 | the item is queued last, or refused exactly when capacity - 1 items are queued |
| RingQueue.Ring.Dequeue | src/core/ring_buffer.c:116-145 | the oldest item queued, or none exactly when there is none |
| RingQueue.Ring.Size | src/core/ring_buffer.c:175-189 | the number of items queued |
| RingOverlap.HarmfulBreaks | src/core/ring_buffer.c:73-145 | after an entry that is not harmless there is a way on, without another such entry, to a state in which an item was returned twice, returned without having been put, or put and lost |
| RingOverlap.BreaksExactly | src/core/ring_buffer.c:73-145 | in a ring of two slots or more, after every run of harmless entries, an entry can lead there, without a harmful one after it, if and only if it is not harmless |
| RingOverlap.HarmfulRun | src/core/ring_buffer.c:73-145 | the same as a run with that one harmful entry |
| RingOverlap.OneSlot | src/core/ring_buffer.c:73-145 | in a ring of one slot nothing is ever put or returned, whoever enters |
| RingOverlap.ItemTakenTwice | src/core/ring_buffer.c:116-145 | from every start, a run with two consumers after which one item was put and returned twice |
| RingOverlap.ItemLost | src/core/ring_buffer.c:73-114 | from every start, a run with two producers after which two items were put, the ring is empty and only the second was returned |
| RingOverlap.LateReached | src/core/ring_buffer.c:116-145 | a run of harmless entries to a state in which a consumer is late, so that an entry is harmless although that consumer may yet take an item |
| EventProcessor.StepInv | src/core/event_processor.c:192-488 | every atomic step of any thread keeps accounting, ownership and numbering; the queue's steps are atomic |
| EventProcessor.EveryRun | src/core/event_processor.c:192-488 | so does every interleaving; the queue's steps are atomic |
| EventProcessor.Accounting | src/core/event_processor.c:438-488 | enqueued = processed + queued + in a worker's hands + drained; submitted, rate limited and dropped never exceed the submissions enqueued, refused and failed, and equal them when no submission is going on; each ended submission is counted exactly once; the queue's steps are atomic |
| EventProcessor.OneHandEach | src/core/event_processor.c:192-216 | no event is in two hands, none in hands is free or released, and numbered events have different numbers; the queue's steps are atomic |
| EventProcessor.NumbersNeverRepeat | src/core/event_processor.c:474-476 | no two submissions of a run get the same sequence number |
| EventProcessor.ClosedReleasesAll | src/core/event_processor.c:341-384 | closed and drained, the pool is full and destroying it releases every event made exactly once; the queue's steps are atomic |
| ProcessorRing.StepProjects | src/core/event_processor.c:192-488 | over the loads and stores of the ring, with harmless entries, every step is a step of the processor with an atomic queue or none to it |
| ProcessorRing.RunProjects | src/core/event_processor.c:192-488 | so every run of harmless entries is a run of the processor with an atomic queue that ends in the same state |
| ProcessorRing.OneHandEach | src/core/event_processor.c:192-216 | in every such run no event is in two hands, none in hands is free or released, and numbered events have different numbers |
| ProcessorRing.Accounting | src/core/event_processor.c:192-488 | in every such run enqueued = processed + size of the ring + in a worker's hands + drained |
| ProcessorRing.ClosedReleasesAll | src/core/event_processor.c:341-384 | in every such run, closed and with the ring empty, the pool is full and destroying it releases every event made exactly once |
| ProcessorOverlap.HarmfulBreaks | src/core/event_processor.c:192-488 | after an entry of a submitter or worker that is not harmless there is a way on, without another such entry, to a state in which the ring handed out an event twice, out of nothing, or lost one |
| ProcessorOverlap.BreaksExactly | src/core/event_processor.c:192-488 | in a processor whose ring has two slots or more, after every run of harmless entries, an entry can lead there, without a harmful one after it, if and only if it is not harmless |
| ProcessorOverlap.TwoHands | src/core/event_processor.c:192-216 | after every run of harmless entries, a worker that enters while another is in the call, which is not bound to leave and did not load the head of an empty ring, and that other can both come to handle the same event |
| ProcessorOverlap.TwoWorkersOneEvent | src/core/event_processor.c:192-216 | from every start of such a processor, a run after which two workers handle one event |
| ProcessorOverlap.EventLost | src/core/event_processor.c:438-488 | from every start of such a processor, a run after which two events were enqueued, no thread is in the ring, and it has only one of them |
| EventHooks.EveryRun | src/core/event_hooks.c:235-761 | every interleaving, registrations included, keeps counter, record, mutexes and hook ids consistent |
| EventHooks.ActiveIsInFlight | src/core/event_hooks.c:532-647 | active_executions equals the executions in flight and never exceeds the limit; each begun execution is in exactly one thread or counted down |
| EventHooks.DropsOnce | src/core/event_hooks.c:282-288 | an execution is counted down at most once and only from a positive counter |
| EventHooks.WaitReturnsIdle | src/core/event_hooks.c:751-761 | waiting returns only when nothing is in flight |
| EventHooks.ExecutionsComplete | src/core/event_hooks.c:235-291 | in every reachable state an execution in its own thread can go on, or the thread with the mutex it wants can, whoever has hooks_mutex |
| HookStats.FaithfulExactly | src/core/event_hooks.c:253-277 | a step from right statistics leads to right ones if and only if it does not register a hook in a slot with an execution still to be counted |
| HookStats.StatsRight | src/core/event_hooks.c:253-277 | in every interleaving without such a registration the statistics of a slot count exactly the executions of the hook in it, and while stats_mutex is free executions = successes + timeouts + failures |
| HookStats.HitGoesWrong | src/core/event_hooks.c:383-446 | after any run ending in such a registration the statistics of the slot are wrong, or two steps make them so |
| HookStats.SuccessWithoutExecution | src/core/event_hooks.c:383-446 | a run after which a hook that never ran has a success and no execution |
| AnomalyBaseline.VarianceSign | src/core/anomaly_detector.c:125-142 | the variance expression is never negative and is zero exactly when all values are equal, so the absolute value changes nothing |
| AnomalyBaseline.LearnedInOrder | src/core/anomaly_detector.c:90-183 | after any observations each of at most 256 types taken up has exactly its values in order, and a type is refused only when all places are taken |
| AnomalyBaseline.Baseline.constructor | src/core/anomaly_detector.c:104-119 | an empty baseline |
| AnomalyBaseline.Baseline.CalculateStatistics | src/core/anomaly_detector.c:125-142 | mean and deviation are those of the buffered values, and zero without values |
| AnomalyBaseline.Baseline.Shift | src/core/anomaly_detector.c:169-172 | drops the oldest value and appends the new one |
| AnomalyBaseline.Baseline.Append | src/core/anomaly_detector.c:161-177 | the buffer has the last 1000 values and the running sums equal the sums recomputed from it |
| AnomalyBaseline.Baseline.Add | src/core/anomaly_detector.c:144-183 | buffer, sums, mean and deviation all are those of the values so far |
| AnomalyBaseline.Detector.Find | src/core/anomaly_detector.c:95-100 | finds a type's baseline exactly when it has one |
| AnomalyBaseline.Detector.Create | src/core/anomaly_detector.c:102-119 | adds an empty baseline and leaves the others |
| AnomalyBaseline.Detector.AddAt | src/core/anomaly_detector.c:157-180 | the value goes to one type's baseline and to no other |
| AnomalyBaseline.Detector.Update | src/core/anomaly_detector.c:144-183 | the observation is learned as the reference says; every baseline stays correct |

## Left out

- Widths of jump offsets, string indexes, counters, ids and sequence counters (32 and 64 bits), except in attribute lengths, netlink sequence numbers and ports, which are modelled at their width.
- Allocation failure, except in submitting events and starting hook threads.
- The table of field names and the extraction of fields from events: any functions.
- Compiling and matching regular expressions: any functions.
- Characters outside ASCII and the locale.
- OP_AND, OP_OR and OP_JUMP, which the compiler never emits.
- Disassembling bytecode, profiling and statistics of single instructions.
- Filter descriptions, times, validation, statistics, saving and loading of filters.
- FilterEval.FilterEval: only for bytecode in which every jump goes forward and stays inside, and every string index is in the table; all compiled and optimised bytecode is such, hand-made bytecode need not be.
- FilterEval.EvalContext.EvalBytecode: only for such bytecode, for the same reason.
- FilterEval.EvalContext.Interpret: only for such bytecode, for the same reason.
- FilterCompiler.Bytecode.Optimize: not for bytecode without instructions, which the compiler never makes and for which the unsigned loop bound wraps.
- NetlinkMsg.NlMsg.constructor: not for sizes below the message header or above 32 bits.
- NetlinkMsg.NlMsg.Append: only for paddings that are 0 or a power of two, the only ones the mask computes.
- NetlinkAttr.NlaParse: only for areas the walk does not leave, which are all areas whose length is a multiple of 4; what lies behind the others is not part of the model.
- NetlinkAttr.NlaValidate: only for areas the walk does not leave, for the same reason.
- NetlinkAttr.NlaFind: only for areas the walk does not leave, for the same reason.
- FilterWriter.RoundTrip: trees with negative numbers have no spelling and are not writable.
- Header fields in building messages, nested attributes, nlmsg_parse and nlmsg_convert.
- NetlinkRecv.EveryRun: excluded are MSG_IN, SEQ_CHECK and SEND_ACK callbacks that do not answer NL_OK, which drop messages, and VALID callbacks that end the loop; any of them may be unset.
- NetlinkRecv.HandleAnswer: with the same callbacks excluded.
- NetlinkRecv.WaitForAckExactly: with the same callbacks excluded.
- Credentials, receive errors and failed sends.
- NetlinkWalk.StaysExactly: only up to 2147483644 bytes, above which a length rounded up is no signed 32-bit number.
- NetlinkWalk.Walk: only for datagrams the walk does not leave, which are all whose length is a multiple of 4; what lies behind the others is not part of the model.
- The table that maps kernel errors to library errors.
- NetlinkSockets.SocketTable.Alloc: sockets are values under a handle the caller chooses, so addresses and aliasing of socket objects are not captured.
- Actions of alerts (scripts, logs, web calls): their outcome is a parameter.
- Alert severities, messages, names in the history, listing calls, reset of statistics and the suppression counters.
- The alert manager's calls are atomic but for the counters (AlertCounters); its three mutexes are not modelled otherwise.
- EventProcessor.EveryRun: over an atomic queue; ProcessorRing.RunProjects carries it over to the loads and stores of the ring as long as entries are harmless, which the source does not ensure, and ProcessorOverlap.BreaksExactly says what every other entry can do.
- EventProcessor.StepInv: over the same atomic queue; ProcessorRing.StepProjects is about the ring.
- EventProcessor.Accounting: over the same atomic queue; ProcessorRing.Accounting is about the ring.
- EventProcessor.OneHandEach: over the same atomic queue; ProcessorRing.OneHandEach is about the ring.
- EventProcessor.ClosedReleasesAll: over the same atomic queue; ProcessorRing.ClosedReleasesAll is about the ring.
- ProcessorOverlap.BreaksExactly: once the processor is closing one thread empties the ring, as event_processor_destroy does, so that nobody overlaps.
- The ring's statistics, and reorderings of its loads and stores beyond what acquire and release allow.
- Running the event processor without a pool, its dispatcher, handlers and rate limiter: a worker may take an event whenever there is one, and the limiter and the queue may refuse any event.
- Liveness of hook execution: wake-ups of condition variables are not counted.
- Event hooks' scripts, environments and durations.
- Rounding of doubles; the anomaly score and the processing of event windows, which takes a mutex it already holds.
- Correlation of events, which takes a mutex it already holds.
- Configuration, command line, web interface and object caches: plumbing around foreign code without a guarantee of its own.
