# Verified models of a shell, a chat server, a striped file transfer, a DNS client and an echo client

Five programs in C, each modelled in Dafny in the form the C code has (loops, arrays, objects with fields, cursors) and
proved against a pure specification. What the C code promises is then proved about the specification: over every line
typed, every interleaving, every division of a stream into reads and writes.

`dafny verify dfyconfig.toml` checks everything.

| files | what they model |
|---|---|
| `ShellLexer`, `ShellParser`, `ShellKernel`, `ShellExecutor`, `ShellMeaning`, `ShellExecution`, `Shell` | the shell: splitter, parser, pipeline executor on a kernel value, syntax trees and their meaning |
| `CStrings`, `ChatCodec`, `ChatModel`, `ChatInvariants`, `ChatRuns`, `ChatEffects`, `ChatServer` | the chat: `strtok`, `atoi`, the message formats, the server as a step system, the server's code |
| `Buffers`, `ChunkFrame`, `Overlap`, `Reassembly`, `Sender` | the striped transfer's parts: `strtok` at a cursor into a buffer, frames, the two ways of taking them apart, positional writes, the dealing loop |
| `Transfer`, `TransferProgress`, `TidyRuns`, `TidyResults`, `OverlapResults`, `SharedCursor`, `CursorRefill`, `RefilledRun` | the receiving threads, with their buffers, their mutex and the one `strtok` cursor they share |
| `Download`, `SelectLoop`, `LoopRounds` | the receiving code as it runs alone, and the select loop that does the same work in one thread |
| `DnsName`, `DnsAnswer` | the DNS client against RFC 1035: encoder, query, answer printer, reference decoder |
| `EchoModel`, `Echo` | the buffered echo client and the upper-casing server as one system, and their code |
| `Options`, `Octets` | a value that may be missing; bytes |

## What is proved, and where the code falls short

**Shell.** A pipeline is a syntax tree: commands chained by `|`, perhaps ended by a fan-out `|| a , b` or
`||| a , b , c`, perhaps followed by `;` and anything; or ended by an operator that misses a reader or a comma, which
sends nothing to the terminal. `Shell.MeaningPreserved` and `Shell.InterpretLine`: printing the tree with single spaces,
splitting, parsing and executing sends to the terminal what the tree denotes, and leaves nothing on standard input.
* The executor visits 128 slots and no more (shell.c:204). `DenoteWithin` is the meaning cut off there;
  `ShellMeaning.BoundHarmlessIff` says exactly which pipelines it does not cut.
* The splitter does not reset its character counter on a blank (shell.c:112-115). Every further blank after a word leaves
  an empty slot; the parser stops at the first one. `ShellLexer.SplitLine` states for every line which slots are filled,
  how many are empty, and that the parser sees all tokens exactly if no word is followed by two blanks and a later token;
  otherwise it sees those up to the first such word (`ShellLexer.VisibleIs`). What the tokens of a line are is stated
  without the lexer: a list that stands in the line, with nothing but blanks between, and no token of which can be
  lengthened; there is exactly one (`ShellLexer.LexIff`).

**Chat.** All handlers, listeners and the broadcaster interleave; the fan-out loop takes one step per user. Mailbox
conservation and order, broadcast exactly once and in the order of the requests, block isolation, the registry invariant
and login are proved for every reachable state. A message is dropped exactly if its reader blocks the sender, and is
shown otherwise; u blocks v exactly if u has asked for it and not taken it back (`ChatEffects.BlocksIffAsked`). The codec
is followed from the sender's keyboard to the receiver's screen. The text of a message arrives exactly if it is not empty
and holds no `;` (`ChatCodec.MessageRoundTripIff`).

**Striped transfer.** Each chunk is written with a trailing NUL, at its position. The step system of the threads
(`Transfer`) has nine steps for each chunk: receive, first `strtok`, second `strtok`, copy, lock, seek, write, count,
unlock. Only the last five are under the mutex; the C library's `strtok` has one cursor for the whole process, so any
thread can move it between another one's two calls.
* `multiplethreads.c` copies the token down over the buffer it lies in (line 56) before writing it;
  `nonblockingconnect.c` does not. C leaves that copy undefined; here it is a `strcpy` that copies from the front.
* No run has more than nine steps for each chunk and one for each connection. It has finished exactly if it is that long
  and no thread has used a NULL token; until then it can be continued, unless a thread has (`TransferProgress.RunsEnd`).
  A run in which a thread does so exists exactly if there are several connections and several chunks
  (`SharedCursor.NeverFailsIff`).
* A run is tidy if no thread makes its first call while another one stands between its two. In tidy runs no thread fails,
  the end can always be reached, and to an observer of the file a turn is one atomic write of what is kept of the thread's
  next chunk (`TidyRuns.StepRefines`, `TidyResults.CanFinish`). Each chunk loses as many characters as its position and
  the delimiter have; the finished file is the same for all tidy runs, stated byte by byte
  (`OverlapResults.ExactOverlapped`), and is the source and a NUL exactly for a source of one byte; the byte counter can
  reach the file length, so that the spin loop ends, exactly for such a source (`OverlapResults.SpinEndsIff`).
* A run that ends without a failure need not be tidy: a thread that has lost the cursor gets a token after all if line 52
  copies a longer frame into the buffer under the spent cursor (`RefilledRun.RefilledEnd`), and the file is wrong then.
  The first frame that can do so is that of chunk n, the second one on connection 0. Every run that ends without a
  failure leaves the file of the tidy runs exactly if there is one connection, or there is no chunk n, or its frame is at
  most one byte longer than that of chunk 0 (`RefilledRun.AlwaysExactIff`). With more than n + 1 chunks it is longer than
  that (`CursorRefill.RefillsIff`).
* The select loop stops at the first connection it finds closed. `LoopRounds.LoopIs` states when that is, and what has
  been read by then, in terms of what select reports alone. If no frame is left unread, the file is the source and one NUL, except that the first byte of a chunk is NUL exactly if the chunk in front of it was
  read later (`SelectLoop.ExactReassembly`). All orders of readiness that leave no frame unread give the source and a NUL
  exactly if there is one connection or one chunk (`SelectLoop.AlwaysFaithfulIff`).
* The file length stands for `data_b`, which in the code comes from a header with the length in gigabytes, rounded to
  four decimals (serverb.c:103).
* A frame fits the sender's 512 bytes exactly for positions below 10^9, when the chunk is whole; the 1 GB files the
  programs are meant for go further (`ChunkFrame.FrameFitsIff`).
* Position and chunk survive the frame exactly if the chunk holds no `;` and no NUL (`ChunkFrame.FrameRoundTripIff`).

**DNS.** Encoder and printer are inverse on all host names; a pointer to offset 12 prints what RFC 1035, section 4.1.4,
reads.
* A pointer into the question is printed correctly exactly if it leads to the whole name, or to offset 16 behind a first
  label of three characters that two labels follow (`DnsAnswer.PointerIff`); `abc.com` is a name for which the latter
  fails (`DnsAnswer.TwoLabelSuffixFails`). Pointers to other labels are taken for labels of 192 octets or more.
* The encoded name has the length strlen + 2 that the client assumes exactly if the name is not empty and does not end in
  a dot (`DnsName.EncodedLengthIff`), and the client finds the answer's data exactly if the answer starts with a pointer
  (`DnsAnswer.ClientOffsetIff`).

**Echo.** In every reachable state the file, the buffer, the bytes under way and the server's buffer make up the
upper-cased text sent; every run ends, and only at the end of the stream.
* The client leaves its loop without writing the rest of its buffer. The file is complete, however client and server
  play, exactly if there is nothing to send (`Echo.FileCompleteIff`): otherwise the end of the stream can be read in the
  turn after the last byte, before the file's turn comes (`Echo.LeftoverLost`).
* The client counts a batch as sent even if `send` took less of it or failed. A play that ends has sent all the data
  exactly if every send took a whole batch (`Echo.AllSentIff`).

## Model

| member | source | states |
|---|---|---|
| ShellLexer.SplitLine | Assignment-1/shell.c:98-158 | For every line: the slot table holds the layout of the line and nothing behind it, its filled slots in order are the tokens of a maximal-munch lexer, its empty slots in front of the last token number the extra blanks, a reader that stops at the first empty slot sees all tokens exactly if no word is followed by two blanks and a later token; slot indices stay inside the growing table |
| ShellLexer.SplitOne | Assignment-1/shell.c:112-155 | One round of the loop keeps the loop's invariant: the slots filled so far and what the rest of the line will fill make up the layout of the line |
| ShellLexer.PutOperator | Assignment-1/shell.c:120-154 | Longest match on `\|\|\|`, `\|\|`, `>>` against the reference operator length |
| ShellLexer.SlotsAreTokens | Assignment-1/shell.c:107-156 | Filled slots, in order, are the reference lexer's tokens, from the start, behind a word and behind a blank |
| ShellLexer.LexIff | Assignment-1/shell.c:107-156 | Without the lexer: a list is the line's tokens exactly if they stand in the line in order with only blanks between, each a word or an operator, and none can be lengthened |
| ShellLexer.LexTokenizes | Assignment-1/shell.c:107-156 | From every place of the line on there is such a list |
| ShellLexer.LexIsUnique | Assignment-1/shell.c:107-156 | And only one |
| ShellLexer.HolesCounted | Assignment-1/shell.c:112-115 | The number of empty slots before the last token is the sum of (length - 1) over the runs of blanks between a word and a later token |
| ShellLexer.VisibleTokens | Assignment-1/shell.c:112-115 | What the parser can see is a prefix of the tokens, and all of them exactly if no word is followed by two blanks and a later token |
| ShellLexer.VisibleIs | Assignment-1/shell.c:112-115 | When some word is followed by two blanks and a later token, the parser sees exactly the tokens up to the first such word |
| ShellLexer.LayoutOfPrinted | Assignment-1/shell.c:107-156 | Splitting a token list printed with single spaces fills one slot per token |
| ShellParser.Parse | Assignment-1/shell.c:160-194 | The command array is the image of the parse of the visible tokens; NULL is returned exactly if there are none or both a pipe and a redirection occur; `isPipeline` otherwise says whether a pipe occurs, and keeps its value with NULL |
| ShellParser.ParseKeepsTokens | Assignment-1/shell.c:165-184 | The arguments of even slots and the words of odd slots, interleaved, are the tokens, for every token list; commands and operators alternate |
| ShellParser.ParseIsUnique | Assignment-1/shell.c:165-184 | The parse is the only alternating slot list with these tokens |
| ShellParser.MentionsStep | Assignment-1/shell.c:177-181 | Which kinds of operator occur is decided round by round, by the operator a round stops at |
| Shell.KindsIff | Assignment-1/shell.c:178-192 | A line has a pipe exactly if one of its tokens is one of the three pipe operators, and a redirection exactly if one is one of the three redirection operators |
| ShellParser.CopyArgs | Assignment-1/shell.c:175-176 | The inner loop copies the tokens up to the next operator or the end |
| ShellKernel.Drain | Assignment-1/shell.c:211-214 | The copying loop, 128 bytes at a time, moves everything the source holds to every destination; it may only read a pipe no one can write to, so it ends |
| ShellKernel.DrainStep | Assignment-1/shell.c:213-214 | Moving a first part and then the rest is moving everything: no byte is lost or doubled |
| ShellExecutor.Tee1 | Assignment-1/shell.c:205-219 | `\|`: the next slot reads a pipe with one copy of the stream and no writer left |
| ShellExecutor.Tee2 | Assignment-1/shell.c:220-241 | `\|\|`: two pipes, a whole copy each, writers closed, both readers write to the terminal |
| ShellExecutor.Tee3 | Assignment-1/shell.c:242-269 | `\|\|\|`: the same with three |
| ShellExecutor.RunExternal | Assignment-1/shell.c:287-313 | An external command: its output is on the terminal or in the pipe of the next slot, all ends closed as the specification of the slot says |
| ShellExecutor.HandOver | Assignment-1/shell.c:299-312 | After wait(), the read of the command's pipe cannot block, and copying and closing leads to the closed form of the slot's effect |
| ShellExecutor.StepKeeps | Assignment-1/shell.c:204-314 | After every slot of any array all writing ends are closed again, and the slots ahead can be run |
| ShellExecutor.ExecuteSlot | Assignment-1/shell.c:205-313 | The loop body, malformed operators and `;` included, does what the specification of a slot says |
| ShellExecutor.Execute | Assignment-1/shell.c:197-318 | On any runnable command array the executor ends, never reads a pipe that has a writer, and computes the slot-by-slot evaluation, from freshly duplicated descriptors; at the end standard input is open as before |
| ShellMeaning.ParsePipeline | Assignment-1/shell.c:160-194 | Parsing the tokens of a pipeline gives its slots |
| ShellMeaning.PipelineKinds | Assignment-1/shell.c:178-192 | A pipeline of more than one command is recognised as one |
| ShellMeaning.PrintedVisible | Assignment-1/shell.c:98-158 | The parser sees all tokens of a printed pipeline |
| ShellMeaning.BoundHarmlessIff | Assignment-1/shell.c:204 | A bound on the visited slots changes no result, for all programs and inputs, exactly if the pipeline needs no more slots |
| ShellMeaning.EnoughSlots | Assignment-1/shell.c:204 | A pipeline within the bound denotes the same with and without it |
| ShellMeaning.TooFewSlots | Assignment-1/shell.c:204 | A pipeline beyond the bound loses output if every program prints a byte |
| ShellExecution.AfterFan | Assignment-1/shell.c:226-268 | Every reader of a fan-out has the whole stream in a pipe of its own and writes to the terminal |
| ShellExecution.AfterBranch | Assignment-1/shell.c:287-313 | A reader that runs adds its output to the terminal and leaves the other readers' pipes as they are |
| ShellExecution.ExecReaders | Assignment-1/shell.c:204-314 | The terminal receives the readers' outputs, on the same stream, in order |
| ShellExecution.ExecSemicolon | Assignment-1/shell.c:271-277 | `;` sends the stream to the terminal and nothing behind it runs |
| ShellExecution.ExecBroken | Assignment-1/shell.c:206-252 | An operator that misses a reader or a comma ends the run, and nothing reaches the terminal |
| ShellExecution.OtherSlots | Assignment-1/shell.c:206-285 | An operator in front of the first command stops the executor with nothing done; a comma and cd are passed over |
| ShellExecution.ExecEmptiesInput | Assignment-1/shell.c:287-313 | The first command reads all of standard input, and nothing is left there at the end |
| ShellExecution.ExecPipeline | Assignment-1/shell.c:197-318 | Executing the slots of any well-formed pipeline sends its meaning to the terminal |
| Shell.MeaningPreserved | Assignment-1/shell.c:98-318 | run(parse(split(print(p)))) adds the meaning of p on standard input to the terminal, as far as the loop bound reaches, and leaves standard input empty |
| Shell.InterpretLine | Assignment-1/shell.c:382-386 | One turn of the shell's loop on any line: when it is a pipeline, and that the executor then evaluates it slot by slot; any other line that was parsed goes to the other executor, a parameter, with the same array; on a printed pipeline the turn delivers the pipeline's meaning, uncut if the pipeline needs at most 128 slots, and leaves standard input empty |
| Shell.ParsedIsRunnable | Assignment-1/shell.c:160-318 | Whatever line was typed, a parse without redirection is an array the executor can run |
| Shell.LexGivesTokens | Assignment-1/shell.c:107-156 | Every token is a word or one of the eight operators |
| CStrings.StrTok.constructor | Assignment-1/tcpserver.c:106-110 | A scratch copy of the string, with the cursor at its start |
| CStrings.StrTok.Next | Assignment-1/tcpserver.c:46-51 | A call of strtok returns the next field and leaves the rest; the field stands in the buffer, the byte behind it is NUL, and no other byte changes |
| CStrings.FieldsOfDelimiter | Assignment-1/tcpserver.c:46-51 | Delimiters in front of a string add no token |
| CStrings.AtoiOfDecimal | Assignment-2/multiplethreads.c:54 | atoi reads back what sprintf("%d") printed |
| CStrings.AtoiStops | Assignment-2/multiplethreads.c:54 | atoi stops at the first character that is no digit |
| CStrings.DecimalLength | Assignment-2/serverb.c:136-137 | A number has at most k digits exactly if it is below 10^k |
| ChatCodec.EncodeMsg | Assignment-1/tcpclient.c:18-27 | The buffer built with strcpy and strcat; without its last byte the server decodes it as the message exactly if the typed text is not empty and holds no `;` |
| ChatCodec.DecodeMsg | Assignment-1/tcpserver.c:43-54 | Three strtok calls return the first three fields, or fail if there are fewer |
| ChatCodec.HandleOutput | Assignment-1/tcpclient.c:29-51 | What the client shows for `inc_msg`, `msgack` and other lines, or that it fails |
| ChatCodec.MessageRoundTripIff | Assignment-1/tcpclient.c:282-284 | Encoding, sending all but the last byte and decoding gives sender, target and text back exactly if the text is not empty and holds no `;` |
| ChatCodec.IncomingRoundTripIff | Assignment-1/tcpserver.c:269-276 | The forwarded line shows first name and text exactly if the text is not empty and holds no `;` |
| ChatCodec.ReplyFields | Assignment-1/tcpserver.c:304-323 | A reply has two fields, and atoi of the second is 1 exactly for yes |
| ChatCodec.AckShown | Assignment-1/tcpclient.c:42-51 | The client shows the server's acknowledgement as sent or not sent |
| ChatCodec.OtherLines | Assignment-1/tcpclient.c:29-51 | A line of another kind is shown as neither a message nor an acknowledgement; without its fields a line crashes the client |
| ChatInvariants.StepGrows | Assignment-1/tcpserver.c:133-177 | Every step keeps ids equal to position plus two, usernames distinct and the block tables' size; users are only added, and only their block tables change |
| ChatInvariants.StepKeepsSenders | Assignment-1/tcpserver.c:265-267 | Every step keeps: the sender of each queued or in-flight message can be found, each message's mailbox exists, each session has a user |
| ChatInvariants.StepConserves | Assignment-1/tcpserver.c:262-277 | Every step keeps, for every mailbox: posted = taken, then queued, in order |
| ChatInvariants.StepDelivers | Assignment-1/tcpserver.c:264-277 | Every step keeps: only its owner takes from a mailbox, and a session has forwarded exactly what it took and did not drop |
| ChatRuns.StepKeepsFanned | Assignment-1/tcpserver.c:553-563 | Every step, also one between two rounds of the fan-out loop, keeps: the loop has appended one copy for each user passed but the sender |
| ChatRuns.StepKeepsRounded | Assignment-1/tcpserver.c:553-563 | Every step keeps: the broadcasts finished and in progress are the messages taken from the broadcast mailbox, in order |
| ChatRuns.RunKeepsGood | Assignment-1/tcpserver.c:288-418 | All of these hold after every run |
| ChatRuns.RegistryInvariant | Assignment-1/tcpserver.c:133-177 | In every reachable state: user i has id i+2, usernames are distinct, no mailbox is the broadcast type, every id indexes every block table, every queued or in-flight sender is found |
| ChatRuns.MailboxConservation | Assignment-1/tcpserver.c:262-313 | In every reachable state nothing is lost, doubled, reordered or taken by another user, the broadcaster takes only from the broadcast mailbox, and every session has forwarded its undropped messages in order |
| ChatRuns.BroadcastExactlyOnce | Assignment-1/tcpserver.c:553-563 | Every finished broadcast has appended exactly one copy for each user registered when it ended, except the sender, and none to any other mailbox |
| ChatRuns.BroadcastsInOrder | Assignment-1/tcpserver.c:336-342 | The messages ever sent to all are those of the finished broadcasts, then the one being copied, then those still queued, in order |
| ChatRuns.LoginIffRegistered | Assignment-1/tcpserver.c:104-177 | After any run, verify_user accepts "name;password" exactly if some create_new_user of the run returned 1 with both |
| ChatRuns.VerifyStep | Assignment-1/tcpserver.c:115-130 | One step changes what verify_user accepts only by creating that user; the early NULL is complete |
| ChatRuns.BlockingStep | Assignment-1/tcpserver.c:388-409 | A step changes whether u blocks v only if it is u's own request about v, and then as requested |
| ChatRuns.BlockIsolation | Assignment-1/tcpserver.c:262-277 | While u blocks v and no step unblocks v, every message of v taken by a session of u is dropped; while u does not block v and no step blocks v, none is |
| ChatRuns.UnblockedIsShown | Assignment-1/tcpserver.c:262-277 | From a reachable state in which u does not block v, until u blocks v: a message of v that a session of u takes is shown by its client, with v's first name and the text |
| ChatRuns.BlockedUntilUnblocked | Assignment-1/tcpserver.c:388-409 | The same from the blocking request to the next unblocking one |
| ChatRuns.ClientShowsMailbox | Assignment-1/tcpclient.c:29-51 | The client's display of a session's lines is, in order, what the session took and did not drop |
| ChatRuns.TypedMessageIsPosted | Assignment-1/tcpserver.c:294-313 | A typed message goes to the mailbox of the user it names, with sender and text |
| ChatEffects.VerifyIs | Assignment-1/tcpserver.c:104-131 | A name and a password verify as user i exactly if user i has both |
| ChatEffects.LoginOpens | Assignment-1/tcpserver.c:226-255 | A login with name and password of user i adds one session, alive, with nothing sent, of user i, and changes nothing else; any other login changes nothing |
| ChatEffects.RegisterAdds | Assignment-1/tcpserver.c:133-177 | A registration under a free name adds the user with the four fields of the line and the next id, who blocks nobody; under a taken one it changes nothing |
| ChatEffects.ListenForwards | Assignment-1/tcpserver.c:263-277 | A listener takes the first message of its mailbox; it drops it exactly if its user blocks the sender, and otherwise sends exactly one line, which the client shows with the sender's first name and the text |
| ChatEffects.TypedBroadcastIsPosted | Assignment-1/tcpserver.c:325-348 | A message typed for all is queued for the broadcaster with its sender and its text, and nothing else happens |
| ChatEffects.UnknownTargetPostsNothing | Assignment-1/tcpserver.c:319-323 | A private message for a name nobody has changes nothing |
| ChatEffects.SessionEnabled | Assignment-1/tcpserver.c:262-418 | In every reachable state a live session's listener can receive exactly if a message waits in its mailbox, and the session can make exactly the requests its line has the fields and names for |
| ChatEffects.ServerEnabled | Assignment-1/tcpserver.c:226-255 | Registrations up to 20 users, logins, and the broadcaster's receive whenever it is idle and a message waits |
| ChatEffects.BlocksIffAsked | Assignment-1/tcpserver.c:388-409 | After any run u blocks v exactly if some step was u's request to block v and no later one was to unblock v |
| ChatServer.Server.constructor | Assignment-1/tcpserver.c:58-61 | The empty table and queue are the initial state |
| ChatServer.Server.FindUser | Assignment-1/tcpserver.c:75-87 | The scan finds the first user of the name, or none |
| ChatServer.Server.VerifyUser | Assignment-1/tcpserver.c:104-131 | The user who has the name and the password of the line; NULL at the first user of the name with another password |
| ChatServer.Server.CreateNewUser | Assignment-1/tcpserver.c:133-177 | Adds the user with the next id and an empty block table and returns 1, or changes nothing and returns 2 if the name is taken, also when the table is full |
| ChatServer.Server.MsgRcv | Assignment-1/tcpserver.c:264 | Takes the first message of the type out of the queue |
| ChatServer.Server.HandleLogin | Assignment-1/tcpserver.c:226-255 | The login step: a new session of the user who has the name and the password of the line; the client reads the first reply as 1 exactly then, and the second greets that user by first name |
| ChatServer.Server.HandlePrivate | Assignment-1/tcpserver.c:294-324 | The private-message step; the client shows its acknowledgement as not sent exactly for an unknown target |
| ChatServer.Server.HandleBroadcast | Assignment-1/tcpserver.c:325-348 | The broadcast request is the model's step; the client shows its acknowledgement as sent |
| ChatServer.Server.HandleBlock | Assignment-1/tcpserver.c:388-398 | The block request is the model's step |
| ChatServer.Server.HandleUnblock | Assignment-1/tcpserver.c:399-409 | The unblock request is the model's step |
| ChatServer.Server.HandleLogout | Assignment-1/tcpserver.c:410-417 | The logout closes this session and its listener and no other; the queue keeps what it holds |
| ChatServer.Server.ListenOnce | Assignment-1/tcpserver.c:263-277 | One turn of a listener is the model's step: receive, filter, forward |
| ChatServer.Server.BroadcastReceive | Assignment-1/tcpserver.c:553-554 | The broadcaster's receive is the model's step |
| ChatServer.Server.BroadcastTurn | Assignment-1/tcpserver.c:556-563 | One round of the fan-out loop, or its exit, is the model's step |
| ChunkFrame.BuildFrame | Assignment-2/serverb.c:136-142 | The frame built with strcpy and strcat; it is read back exactly if the chunk holds no `;` and no NUL |
| ChunkFrame.FrameRoundTripIff | Assignment-2/serverb.c:122-148 | The receiver recovers position and chunk exactly if the chunk holds no `;` and no NUL |
| ChunkFrame.FrameFitsIff | Assignment-2/serverb.c:136-142 | Frame and terminator fit 512 bytes for positions below 10^9; for whole chunks only then |
| Reassembly.FileAfter | Assignment-2/nonblockingconnect.c:183-185 | After any order of distinct chunks, complete or not: a byte of the file is the source's exactly if its chunk was written and not overtaken there, and NUL otherwise |
| Reassembly.FinalFile | Assignment-2/nonblockingconnect.c:183-185 | With every chunk written: the source and a NUL, except NUL at the start of a chunk written before its predecessor |
| Reassembly.FaithfulIff | Assignment-2/nonblockingconnect.c:183-185 | The file is the source and a NUL exactly if no chunk was overtaken |
| Sender.SendAll | Assignment-2/serverb.c:121-149 | The read, frame and send loop puts on connection q the frames of chunks q, q+n, q+2n, .. and stops at the end of the file |
| Sender.ShareBound | Assignment-2/serverb.c:146-148 | Frame j of connection q is among the first m chunks exactly if j is within q's share: the dealing partitions the file |
| Buffers.TokIs | Assignment-2/multiplethreads.c:53-55 | strtok(NULL, ";") at a cursor where a string stands finds its first token, moves the cursor to the rest and overwrites the one delimiter behind the token |
| Buffers.TokText | Assignment-2/multiplethreads.c:53-55 | The token then stands in the buffer, ended by a NUL |
| Buffers.TokRest | Assignment-2/multiplethreads.c:53-55 | The rest of the string stands at the new cursor |
| Overlap.CopyDown | Assignment-2/multiplethreads.c:56 | A strcpy that copies from the front moves the token to the start of the buffer and leaves what lies behind |
| Overlap.TokenAfterCopy | Assignment-2/multiplethreads.c:56-64 | The token then reads without as many characters as stand before it, unless it is shorter than that |
| Overlap.ReadFrame | Assignment-2/nonblockingconnect.c:178-185 | On any frame, when nobody else calls strtok in between, with and without the copy: position and text as they are written, or that a token is missing |
| Overlap.ReadOfFrame | Assignment-2/nonblockingconnect.c:178-185 | From a sender's frame, when nobody else calls strtok in between: the position, and the chunk, or with the copy the chunk without as many characters as position and delimiter have |
| Overlap.OneFieldFails | Assignment-2/nonblockingconnect.c:178-185 | A frame of fewer than two fields has no text to write |
| Transfer.MutualExclusion | Assignment-2/multiplethreads.c:59-71 | In every run no two threads are between lock and unlock |
| TransferProgress.Progress | Assignment-2/multiplethreads.c:50-71 | While no thread has failed and not all have finished, some thread can take a step |
| TransferProgress.RunsEnd | Assignment-2/multiplethreads.c:31-73 | For every interleaving of the strtok calls too: no run has more than nine steps for each chunk and one for each connection; all threads have finished exactly if it is that long and none has failed; otherwise it can be continued, unless a thread has failed |
| SharedCursor.FailingRun | Assignment-2/multiplethreads.c:53-56 | For several connections and chunks, a run from the start in which a thread's second strtok returns NULL, which line 56 reads |
| SharedCursor.NeverFailsIff | Assignment-2/multiplethreads.c:53-56 | No run fails exactly if there is one connection or at most one chunk |
| TidyRuns.StepRefines | Assignment-2/multiplethreads.c:50-71 | As long as the two calls of every turn stay together, the nine steps of a turn refine one atomic positional write of what is kept of the thread's next chunk, done at most once |
| TidyRuns.StepCounts | Assignment-2/multiplethreads.c:56-67 | Every such step keeps: counter plus the bytes written and not yet counted is the total length of what was written |
| TidyRuns.StepKeepsInv | Assignment-2/multiplethreads.c:31-73 | Every such step of every thread keeps the whole invariant: buffers, cursor, threads, log, file, counter |
| TidyRuns.RunKeepsInv | Assignment-2/multiplethreads.c:31-73 | So every tidy run is a run and keeps it |
| TidyResults.TidyProgress | Assignment-2/multiplethreads.c:50-71 | Until all threads have finished, some thread can take a step that keeps the calls together |
| TidyResults.CanFinish | Assignment-2/multiplethreads.c:31-73 | From every state of a tidy run the end can be reached without a failure |
| TidyResults.CounterIs | Assignment-2/multiplethreads.c:56-67 | In every state of a tidy run the counter is the length of what was written, less what is not yet counted, and at most the length of all that is kept |
| TidyResults.FinishedIsComplete | Assignment-2/multiplethreads.c:169-172 | When all threads of a tidy run have ended, every chunk was written once, and all that is kept was counted |
| OverlapResults.LoadStaysInside | Assignment-2/multiplethreads.c:54-64 | What is kept of a chunk, and its NUL, stay inside the chunk's own 500 bytes: no chunk is overtaken |
| OverlapResults.ExactOverlapped | Assignment-2/multiplethreads.c:50-71 | Length and every byte of the file of a finished tidy run, the same for all of them and for all numbers of connections, and the final counter |
| OverlapResults.OverlappedFaithfulIff | Assignment-2/multiplethreads.c:50-71 | The file of a finished tidy run is the source and a NUL exactly for a source of one byte |
| OverlapResults.CounterStaysBelow | Assignment-2/multiplethreads.c:67 | For a source of more than one byte recv_data is below the file length in every state of a tidy run |
| OverlapResults.SpinEndsIff | Assignment-2/multiplethreads.c:162-167 | In tidy runs on a source that is not empty the spin loop can end exactly if the source is of one byte |
| CursorRefill.RefillsIff | Assignment-2/multiplethreads.c:52-55 | The first frame that can refill the spent cursor does so exactly if there are more than n + 1 chunks, or n + 1 of which the last one is long enough for its position |
| CursorRefill.EndingRunTidy | Assignment-2/multiplethreads.c:50-73 | If it does not, every run that ends without a failure is tidy |
| CursorRefill.EndsTidy | Assignment-2/multiplethreads.c:50-73 | So every end without a failure is that of a tidy run, and all results about finished tidy runs hold of it |
| RefilledRun.RefilledEnd | Assignment-2/multiplethreads.c:50-73 | If it does and there are several connections, a run from the start that ends without a failure and has the end of another chunk in the place of chunk 1 |
| RefilledRun.WrongContent | Assignment-2/multiplethreads.c:50-73 | The file of that run is not the file of the tidy runs |
| RefilledRun.AlwaysExactIff | Assignment-2/multiplethreads.c:50-73 | Every run that ends without a failure leaves the file of the tidy runs exactly if there is one connection or no refill |
| Download.TurnIsRun | Assignment-2/multiplethreads.c:50-71 | An uninterrupted turn of a thread is a run of nine small steps |
| Download.Receiver.constructor | Assignment-2/nonblockingconnect.c:145-151 | Nothing received yet: the start state |
| Download.Receiver.Store | Assignment-2/nonblockingconnect.c:178-187 | The code of a turn, buffer and strtok included, with and without the copy, has exactly the effect of the turn: file, position, counter |
| Download.Receiver.SelectRound | Assignment-2/nonblockingconnect.c:161-189 | One pass over the connections that select reported stores a frame of each, in order, up to the first one found closed |
| Download.Receiver.SelectLoop | Assignment-2/nonblockingconnect.c:153-205 | Whatever select reports, the loop does its rounds one after the other and stops behind the one that found a connection closed |
| LoopRounds.RoundIs | Assignment-2/nonblockingconnect.c:161-189 | A round reports a closed connection exactly if some ready one has nothing left; up to the first such one a frame of every ready connection is read, written at its position, counted and recorded, in order, and from there on nothing |
| LoopRounds.LoopIs | Assignment-2/nonblockingconnect.c:153-205 | The loop stops in the first round, at the first connection, that is ready after all its frames were read; by then every connection was read once in every round in which it was ready, and nothing is read afterwards |
| LoopRounds.ClosedIff | Assignment-2/nonblockingconnect.c:167-203 | It reports a closed connection exactly if there is such a round and connection |
| LoopRounds.WhatIsWritten | Assignment-2/nonblockingconnect.c:153-205 | On the sender's frames a chunk is written exactly if its connection was ready often enough before that |
| SelectLoop.StoreKeeps | Assignment-2/nonblockingconnect.c:164-187 | Every write of the loop keeps the invariant of inboxes, log, file and counter |
| SelectLoop.FileSoFar | Assignment-2/nonblockingconnect.c:178-187 | In every state the loop comes to, no chunk was written twice, each connection's chunks are in order, and every byte of the file is the source's where it is intact and NUL elsewhere |
| SelectLoop.CompletionIff | Assignment-2/nonblockingconnect.c:178-191 | The counter never exceeds the file length, and reaches it exactly if every chunk is written |
| SelectLoop.AllReadComplete | Assignment-2/nonblockingconnect.c:153-205 | When no frame is left unread, every chunk was written, once, and all was counted |
| SelectLoop.ExactReassembly | Assignment-2/nonblockingconnect.c:153-205 | For any number of connections and any readiness that leaves no frame unread: length, final NUL, and every byte of the file; equal to source and NUL exactly if no chunk was overtaken |
| SelectLoop.UnfaithfulReadiness | Assignment-2/nonblockingconnect.c:153-205 | For every source of at least two chunks over at least two connections, a readiness that leaves no frame unread and a file that is not the source and a NUL |
| SelectLoop.AlwaysFaithfulIff | Assignment-2/nonblockingconnect.c:153-205 | Every readiness that leaves no frame unread gives the source and a NUL exactly if there is one connection or one chunk |
| DnsName.ChangeHostNameToDnsFormat | Assignment-2/dns_client.c:67-77 | The buffer holds the encoding of any name, its length is returned, nothing behind is touched |
| DnsName.EncodedLengthIff | Assignment-2/dns_client.c:160-161 | The encoded length is strlen + 2 exactly if the name is not empty and does not end in a dot |
| DnsName.LabelOffset | Assignment-2/dns_client.c:67-77 | The length octet of the label that starts at index s stands at offset s, and the encoding from there is that of the rest of the name |
| DnsName.EncodeAt | Assignment-2/dns_client.c:67-77 | Octet by octet, for every name: a character stands one place behind its own, and a dot has become the length of the label behind it |
| DnsName.RfcRoundTrip | Assignment-2/dns_client.c:67-77 | RFC 1035 decoding, wherever the encoded name stands, gives the name back |
| DnsName.RfcLiteral | Assignment-2/dns_client.c:178-184 | RFC 1035 reads literal labels as the name they spell, in front of what follows |
| DnsAnswer.PrintAnswer | Assignment-2/dns_client.c:166-185 | The printing loop prints what the recursive specification says, for any answer data |
| DnsAnswer.PrintSuffix | Assignment-2/dns_client.c:172-176 | The two backward scans print the name from behind the dot they stop at |
| DnsAnswer.PrintedLiteral | Assignment-2/dns_client.c:178-184 | Literal labels are printed as the name they spell, then what follows |
| DnsAnswer.HostNameRoundTrip | Assignment-2/dns_client.c:166-185 | The printing loop, run on the encoder's output, prints the name |
| DnsAnswer.EncodeInjective | Assignment-2/dns_client.c:67-77 | Different host names have different encodings |
| DnsAnswer.PointerTarget | Assignment-2/dns_client.c:168-176 | For RFC 1035 a pointer to 12 is the whole query name, one to 12 + s the rest of it from the label at s |
| DnsAnswer.WholeNamePointer | Assignment-2/dns_client.c:168-171 | A pointer to 12, alone or behind literal labels, is printed as RFC 1035 reads it |
| DnsAnswer.SuffixIff | Assignment-2/dns_client.c:172-176 | The scans print name[4..], where the name's first label has three characters, exactly if two labels follow |
| DnsAnswer.SuffixPointerIff | Assignment-2/dns_client.c:172-176 | A pointer to 16, where a label of the question starts, is printed as RFC 1035 reads it exactly if that label is the last but one |
| DnsAnswer.OtherPointer | Assignment-2/dns_client.c:178-184 | A pointer to any offset but 12 and 16 is printed as a label of 192 octets or more |
| DnsAnswer.PointerIff | Assignment-2/dns_client.c:166-185 | A pointer to where a label of the question starts is printed as RFC 1035 reads it exactly if it is the whole name, or the label at index 4 and the last but one |
| DnsAnswer.TwoLabelSuffixFails | Assignment-2/dns_client.c:172-176 | For abc.com the scans print bc.com |
| DnsAnswer.ClientOffsetIff | Assignment-2/dns_client.c:160-161 | When the question is echoed, the client finds the answer's data exactly if the answer starts with a pointer |
| DnsAnswer.PrepareQuery | Assignment-2/dns_client.c:79-95 | The buffer holds the query and its length is returned |
| DnsAnswer.QueryIsRfc | Assignment-2/dns_client.c:51-95 | The query's header, name, type and class read back, by RFC 1035, as what was asked; its length is 12 + strlen + 2 + 4 |
| EchoModel.StepConserves | Assignment-2/nonblockingio.c:87-137 | Every step keeps: file, buffer, bytes under way and the server's buffer make up the upper-cased text sent |
| EchoModel.NeverAtLimit | Assignment-2/nonblockingio.c:99-100 | The test for 100 percent, done before the bytes just read are counted, never holds |
| EchoModel.StreamConservation | Assignment-2/nonblockingio.c:73-133 | The same equation in every reachable state; the file is a prefix of the upper-cased text; the counter is file plus buffer |
| EchoModel.EndOfStream | Assignment-2/nonblockingio.c:93-96 | At the end file and buffer are the whole upper-cased stream and all of it was counted; the file is complete exactly if the buffer is empty |
| EchoModel.NeverStuck | Assignment-2/nonblockingio.c:73-78 | While the client is not done something can be done: the reset of the cursors keeps a full buffer from blocking the loop |
| EchoModel.RunsAreBounded | Assignment-2/nonblockingio.c:67-139 | Every step lessens the work left, so every run is bounded |
| EchoModel.AlwaysEnds | Assignment-2/nonblockingio.c:67-139 | A bound on the length of all runs, and a run that cannot go on has reached the end of the stream |
| Echo.UpperInPlace | Assignment-2/server.c:86-89 | The loop upper-cases the received part of the buffer in place and nothing else |
| EchoModel.ToUpperTable | Assignment-2/server.c:86-89 | The 26 small letters become the capital ones, and every other byte stays |
| Echo.Serve | Assignment-2/server.c:72-91 | What the server sends is what it received in upper case, however it arrives |
| Echo.RaiseIsRun | Assignment-2/server.c:86-89 | Upper-casing a chunk is a run of the system, one step per byte |
| Echo.BuildData | Assignment-2/nonblockingio.c:51-56 | Eight doublings give 256 times the letter e |
| Echo.StrCli.constructor | Assignment-2/nonblockingio.c:26-30 | Both cursors at the start of the array: the start state |
| Echo.StrCli.TakeTurn | Assignment-2/nonblockingio.c:68-138 | One turn of the select loop: read, send, write, shut down, with the file asked for before the read |
| Echo.TurnEffects | Assignment-2/nonblockingio.c:68-138 | What a turn does, call by call, to buffer, file, counters and socket, in terms of what the calls report |
| Echo.StrCli.ReadIntoBuffer | Assignment-2/nonblockingio.c:87-115 | The bytes read stand behind the filling cursor; end of file and the 100 percent test end the loop |
| Echo.StrCli.WriteFromBuffer | Assignment-2/nonblockingio.c:122-133 | A prefix of what lies between the cursors goes to the file; when the cursors meet, both return to the start |
| Echo.StrCli.Loop | Assignment-2/nonblockingio.c:67-139 | Client loop and server together go through the system's states; when the loop has ended, file and buffer are the upper-cased stream |
| Echo.TurnIsRun | Assignment-2/nonblockingio.c:68-138 | A turn of the loop is a run of the system |
| Echo.PlayedIsReachable | Assignment-2/nonblockingio.c:67-139 | Whatever server and loop do together is a run of the system |
| Echo.PlayedStream | Assignment-2/nonblockingio.c:67-139 | So the file is always a prefix of the upper-cased stream, and with the buffer all of it at the end |
| Echo.LeftoverLost | Assignment-2/nonblockingio.c:87-133 | For every number of turns client and server can play so that the one byte sent never reaches the file |
| Echo.FileCompleteIff | Assignment-2/nonblockingio.c:67-139 | Every play that ends leaves the whole upper-cased stream in the file exactly if there is nothing to send |
| Echo.AllSentIff | Assignment-2/nonblockingio.c:117-120 | A play that ends has sent all the data exactly if every send it counted took a whole batch |

## Left out

- Sockets, connect, accept, select, fork, exec, signals, sleeps, timing and throughput figures: foreign calls; they are step relations, stream functions or parameters.
- ShellKernel.Drain: pipes are unbounded and pipe numbers are never reused, so a stage never blocks on a full pipe.
- ShellKernel: programs are functions of name, arguments and whole input; a program reads all of its input; one that is not found, crashes or leaves input unread is not told apart.
- ShellExecutor.RunExternal: the shell closes its copy of the terminal (shell.c:304, 312) while children still inherit the terminal as standard output, which the shell itself never closes.
- ShellMeaning: `cd`, redirections and pipelines that go on after a fan-out are outside the grammar; the executor is still proved safe on every parsed line without redirection.
- ShellParser.Parse: a command holds any number of arguments; the C arrays are fixed, and so are the word buffers of the splitter. Memory fresh from malloc and realloc counts as zeroed.
- Shell.InterpretLine: what shell_execute_redirected (shell.c:320-373) does with a line without a pipe is a parameter: it opens files and execs. shell_read_line, autocomplete and interruptHandler are terminal and directory I/O.
- ChatModel: create_new_user is one step, as its comments intend (tcpserver.c:162-173); a listener's receive, filter and forward is one step. Requests arrive whole and a message names its session's own user as sender.
- ChatModel: at most 20 users, the size of the table, which the server does not check; the queue is unbounded; fixed string sizes are not modelled.
- ChatServer.Server.CreateNewUser: not for a new name when the table already holds 20 users; the code then writes behind the array.
- ChatServer.Server.HandleBlock: the server crashes on a block request for an unknown user; the model has no such step. The same goes for lines with too few fields.
- ChatCodec.HandleOutput: status lines (`userstat`, `statcnt`, `gibber`) are one case with all other lines, and their fields are not read.
- ChatServer.Server.HandleLogin: child_pid and online_status, the client's address and the pauses are not stored.
- ChatServer.Server.HandleLogout: online_status is not stored, and the killing of the listener is that it takes no more turns.
- Status listing, online_status, update_user_status, the client's menus and its login dialogue: user interface, or dependent on which processes live.
- Transfer: frames arrive whole; the source holds no `;` and no NUL, like the letters the sender generates; integers stand for the doubles. Each call of strtok, strcpy, atoi and strlen is one step, and so is each read and write of recv_data: calls of strtok that overlap in time are not modelled. A thread that uses a NULL token ends the process.
- OverlapResults.CounterStaysBelow: for tidy runs; in others a thread may count text that another thread has copied into its buffer meanwhile.
- OverlapResults.SpinEndsIff: for tidy runs, for the same reason. For the empty source the loop divides zero by zero and does not end.
- OverlapResults.OverlappedFaithfulIff: for tidy runs; RefilledRun.AlwaysExactIff says when all runs that end have their file.
- Overlap.CopyDown: C leaves the overlapping strcpy at multiplethreads.c:56 undefined; one that copies in another order is not modelled.
- OverlapResults.ExactOverlapped: for tidy runs, and for files of at most 2^31 bytes, so that positions are C ints.
- ChunkFrame.BuildFrame: the one-byte overflows of serverb.c (a full read buffer's terminator, ten-digit positions) are not modelled as memory errors; FrameFitsIff says when a frame fits.
- Download.Receiver.SelectLoop: the loop stops at the first connection found closed (nonblockingconnect.c:197-203), so that completeness is claimed only for readiness that leaves no frame unread; the failing recv is left out.
- DnsAnswer.PrintAnswer: octets behind the response read as zero, as in the cleared buffer, without its limit of 1024. For the empty name the octet in front of it, which the scan reads and does not use, is left out. A and AAAA answers are printed by inet_ntop.
- DnsAnswer.PointerIff: for names shorter than 192 octets from the label pointed to on; a longer rest might by chance equal the octets printed.
- DnsAnswer.PrepareQuery: the identifier is a parameter; the header's bit fields are laid out from the low bit, as the comment at dns_client.c:29 says.
- EchoModel.AlwaysEnds: a call that moves no byte and changes nothing is not a step; that calls which can succeed are tried again is assumed.
- Echo.StrCli.TakeTurn: the write of an uninitialised buffer at nonblockingio.c:109 is left out; only the `fr` buffer's way to the file is modelled. The number of turns is a parameter, 4194304 in the program.
- Echo.StrCli.ReadIntoBuffer: without what nonblockingio.c:109 writes to the file.
- Echo.StrCli.Loop: the file is what the `fr` buffer's way writes to it, without nonblockingio.c:109.
- Echo.PlayedStream: the file is what the `fr` buffer's way writes to it, without nonblockingio.c:109.
- Echo.FileCompleteIff: the file is what the `fr` buffer's way writes to it, without nonblockingio.c:109.
- Assignment-2/blockingio.c, twoprocesses.c and twothreads.c repeat the echo client in simpler forms; Assignment-3 is network plumbing.
