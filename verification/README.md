# Verification of the concurrent file server

A Dafny model of an in-memory file server written in C, and proofs about it. The server answers
CREATE, READ, UPDATE, DELETE and LIST requests, each in a thread of its own, on one shared linked
list that is locked hand over hand.

The project has four layers; each rests on the one before.

1. **The list.** `ListSpec` says what the operations mean on a plain sequence of elements.
   `LinkedList` has them as methods on node objects, with the pointer walks of the C code, proved
   against that meaning. `Machine` has them as a concurrent step system: every lock, unlock,
   pointer access, payload byte and free is a step, and threads, calls and elements are unbounded
   in number. `Pipeline` is the abstraction that makes the proof work: operations enter at the
   header, never overtake, and letting the pending ones run to completion gives the serial state.
   `Chains`, `Invariant`, `Preserve`, `Abstraction`, `Simulation`, `Moves`, `Settling`,
   `Reshaping` and `Refinement` prove that every step of the machine is a move of the pipeline;
   `Theorems`, `Faults`, `Order`, `Progress`, `Termination`, `Walks` and `Names` state what follows
   for all runs.
2. **The parser.** `Tables` holds the generated tables; `Lookup` the two binary searches over
   packed keys; `Grammar` the machine definition with its embedded actions, what its words mean,
   and its derivative; `Language` the language in closed form. `Generated` and `Compiled` prove
   that the tables mean the grammar. `Fields` and `MessageProcessing` have the interpreter loop
   with its buffers and the commands, as methods that end in calls on the list objects.
3. **Requests and responses.** `Messages` and `RoundTrip`: decimal numbers, what a request asks
   for, what its response says, and how the two fit together. `Answers` says it in full: every
   message as it is written, every response as it is read, every limit as a number.
4. **The server.** `History` says what serial histories guarantee about names, contents and
   order; `Server` proves that all responses of any concurrent run are those of handling the
   requests one at a time, and `Service` that all of them can be answered, and what each is told.
   `Cleanup`, `Joins` and `Upkeep` cover the listener and the cleanup thread over their own list.

`dafny verify dfyconfig.toml` checks everything.

Where comments or macros in the code suggest more than the code does, the model follows the code:

- LIST announces the number of files, but prints it into four bytes including the terminator
  (`lib/messageProcessing.c:227`), so from 1000 files on it is wrong. `CountExact` proves the exact
  limit, `ListMiscounts` that stores of any such size can be reached, and `ThousandFiles` gives an
  instance.
- A LENGTH of five or more digits is said to be validated later (`lib/messageProcessing.rl:104-109`),
  but only its first four digits are stored, without a terminator, and `atoi` reads on into the
  memory behind them. That memory is a parameter, and every theorem holds whatever is in it.
  `MemoryMatters` proves the exact condition under which it decides the answer, `OthersSettled`
  that it never does otherwise, and `MemoryDecides` gives an instance.
- An element whose payload has size 0 would be reported by READ as missing. The store invariant
  shows that no request creates one.
- Row 0 of the tables has a default target of 2. It is never looked up: the loop leaves in state 0.

## Model

| member | source | states |
|---|---|---|
| ListSpec.Find | lib/concurrentLinkedList.c:276-318 | a search finds the first element with the ID, and nothing before it matches; past the end means there is none |
| LinkedList.ConcurrentLinkedList.UseElementByID | lib/concurrentLinkedList.c:276-318 | the pointer walk returns the first node with the ID and its predecessor, or null and the last node |
| LinkedList.ConcurrentLinkedList.GetElementByID | lib/concurrentLinkedList.c:320-345 | a read leaves the list alone and returns the payload and size of the first match, or none with size 0 |
| LinkedList.ConcurrentLinkedList.GetFirstListElement | lib/concurrentLinkedList.c:196-227 | returns the head's payload and size, or none |
| LinkedList.ConcurrentLinkedList.GetAllElementIDs | lib/concurrentLinkedList.c:229-267 | counts the elements and collects their IDs in order, each after a newline |
| LinkedList.ConcurrentLinkedList.LinkIn | lib/concurrentLinkedList.c:357-368 | linking behind the last node (or the header) appends exactly that element |
| LinkedList.ConcurrentLinkedList.AppendUniqueListElement | lib/concurrentLinkedList.c:347-373 | appends and returns 0 if the ID is new, otherwise returns 1 and changes nothing |
| LinkedList.ConcurrentLinkedList.AppendListElement | lib/concurrentLinkedList.c:167-194 | appends at the end whatever the ID |
| LinkedList.ConcurrentLinkedList.Unlink | lib/concurrentLinkedList.c:382-392 | bypassing a node removes exactly it from the chain and keeps the order of the others |
| LinkedList.ConcurrentLinkedList.RemoveListElementByID | lib/concurrentLinkedList.c:375-401 | removes the first match and returns 0, or returns 1 and changes nothing |
| LinkedList.ConcurrentLinkedList.Overwrite | lib/concurrentLinkedList.c:418-428 | writing a payload into a node changes that element's data and nothing else |
| LinkedList.ConcurrentLinkedList.UpdateListElementByID | lib/concurrentLinkedList.c:403-435 | replaces the payload of the first match in place and returns 0, or returns 1 |
| LinkedList.ConcurrentLinkedList.RemoveFirstListElement | lib/concurrentLinkedList.c:157-165 | removes the head if there is one |
| LinkedList.ConcurrentLinkedList.RemoveAllElements | lib/concurrentLinkedList.c:146-155 | leaves the empty list |
| Pipeline.ThroughIsApply | lib/concurrentLinkedList.c:146-435 | meeting the elements one by one from the header is the operation as specified on whole lists |
| Pipeline.MoveKeepsTotal | lib/concurrentLinkedList.c:281-312 | letting the pending operations run to completion, tail-most first, gives the same list and results before and after any operation passes, stops at or removes an element |
| Pipeline.EnterExtendsTotal | lib/concurrentLinkedList.c:72-79 | an operation that locks the header goes last in the serial history |
| Refinement.StepSimulates | lib/concurrentLinkedList.c:40-435 | every lock, unlock, pointer, payload or free step of every thread is a move of the pipeline or invisible to it |
| Refinement.NobodyWaits | lib/concurrentLinkedList.c:96-119 | when removeElement destroys an element's mutexes no thread is about to lock either |
| Refinement.RunSound | lib/concurrentLinkedList.c:40-435 | every state of every run satisfies the lock-chain invariant, and its drained pipeline is the serial history of the calls that locked the header |
| Theorems.NoRunFaults | lib/concurrentLinkedList.c:96-119 | safe reclamation: under no schedule is freed memory touched or freed again, an unwritten byte read, a foreign lock released, or a mutex destroyed while held or awaited |
| Theorems.Serialisable | lib/concurrentLinkedList.c:146-435 | serialisability: each finished call has the result it gets when the calls run one at a time in the order in which they locked firstElementMutex |
| Theorems.SettledResult | lib/concurrentLinkedList.c:328-342 | a call's result is fixed in the serial history as soon as it has stopped walking, however much copying is left |
| Theorems.FinalList | lib/concurrentLinkedList.c:146-435 | when all calls have returned, the chain in memory is the serial history's list, no other node is allocated, and all locks are free |
| Theorems.ShapeAlways | lib/concurrentLinkedList.c:96-119 | conservation in every reachable state: the chain is finite, acyclic and null-terminated, each allocated node is in it or privately held by exactly one thread, and locks are held exactly at the program points that hold them |
| Theorems.RemoveAllEmpties | lib/concurrentLinkedList.c:146-155 | if removeAllElements is the last call to enter, then when all have returned only the header is allocated |
| Faults.FaultsAreMisuses | lib/concurrentLinkedList.c:96-119 | a step faults if and only if it uses unallocated memory, a freed payload or ID, an unwritten or foreign character, or a lock against the rules |
| Faults.NoMisuse | lib/concurrentLinkedList.c:205-219 | in no reachable state is any thread's next step such a misuse |
| Faults.NothingLeftBehind | lib/concurrentLinkedList.c:96-119 | whenever a step frees a node, its mutexes have been destroyed and its payload and ID freed |
| Theorems.RealTimeOrder | lib/concurrentLinkedList.c:72-79 | linearisability: a call that returned before another started comes before it in the serial order |
| Order.NoOvertaking | lib/concurrentLinkedList.c:281-312 | element locks lie strictly further down the chain for calls that locked the header earlier |
| Order.EarlierNeverAsks | lib/concurrentLinkedList.c:281-312 | once a call holds an element's usage lock, no call that locked the header earlier asks for either of that element's locks again, in any continuation of the run that does not free the element |
| Order.GrantedInEntryOrder | lib/concurrentLinkedList.c:329-331 | of two calls at the step that acquires one element's content mutex, at two points of a run between which the element is not freed, the one there first locked the header first |
| Progress.NoDeadlock | lib/concurrentLinkedList.c:299-312 | in every reachable state with an unfinished call some thread can step |
| Termination.BudgetShrinks | lib/concurrentLinkedList.c:249-258 | every step of any thread lowers the measure of the work left |
| Termination.BoundedWork | lib/concurrentLinkedList.c:299-312 | from a reachable state whose payloads have at most p characters, the pending calls take at most a fixed number of steps, computed from p and the numbers of nodes and threads, however they are scheduled |
| Termination.AlwaysBounded | lib/concurrentLinkedList.c:299-312 | every reachable state has such a p, and so one bound for all schedules |
| Termination.AllStepsCount | lib/concurrentLinkedList.c:299-312 | the steps bounded are counted in full: as many as there are events exactly if each event moves its thread |
| Termination.CanFinish | lib/concurrentLinkedList.c:146-435 | from every reachable state some schedule completes all calls |
| Walks.WalkBounded | lib/concurrentLinkedList.c:299-312 | a call that has not locked the header yet walks to at most the elements in the chain, those that calls already inside may still append, and one for each call that locks the header before it |
| Walks.WalkFromRest | lib/concurrentLinkedList.c:249-258 | from a state with no call under way, a walk visits at most the initial length plus the number of calls that entered before it |
| Walks.WalkReaches | lib/concurrentLinkedList.c:299-312 | the visits bounded are counted in full: wherever a call stands in the chain it has visited at least the elements up to there |
| Walks.WalkExact | lib/concurrentLinkedList.c:299-312 | from rest, the first call to enter has visited exactly the elements up to where it stands, while the chain has its length |
| Names.MoveKeepsNames | lib/concurrentLinkedList.c:347-373 | a creation under way has not met its name, and no move gives two elements one name |
| Names.NamesUniqueInMemory | lib/concurrentLinkedList.c:347-373 | at every moment of every run of file operations no two nodes of the chain have the same ID |
| Lookup.Linear | lib/messageProcessing.c:385-431 | linear lookup: the first key or range that takes the character, the default last |
| Lookup.SearchSingles | lib/messageProcessing.c:388-409 | the binary search among sorted single keys finds the key or shows it absent, inside the slice |
| Lookup.SearchRanges | lib/messageProcessing.c:411-431 | the binary search over packed bounds finds the range or shows there is none, always standing on a lower bound |
| Lookup.Select | lib/messageProcessing.c:385-431 | the two-stage search selects the transition that linear lookup selects, for any sorted keys and disjoint ranges |
| Generated.AllEncoded | lib/messageProcessing.c:66-159 | all 49 states' packed keys, targets and action offsets hold the listed rules |
| Generated.AllListed | lib/messageProcessing.c:66-72 | every action offset holds the length and the codes of the listed actions |
| Generated.Fits | lib/messageProcessing.c:74-125 | every generated state's keys are sorted and disjoint and inside the tables, as the searches need |
| Generated.SelectsRule | lib/messageProcessing.c:385-435 | looking a character up in the packed tables follows the state's rule |
| Compiled.TablesMeanGrammar | lib/messageProcessing.c:66-159 | compiler output against source: in every state and for every character the tables select the state that stands for the grammar's derivative, with exactly the embedded actions |
| Compiled.StartMeansGrammar | lib/messageProcessing.c:161-163 | the start state stands for the whole machine definition, the error state for nothing, state 48 for a message read |
| Compiled.FinalReturns | lib/messageProcessing.c:507-531 | state 48 is entered only by action lists that return, so it is never resumed |
| Compiled.OtherBytesRejected | lib/messageProcessing.c:397-428 | values outside 0..126 lead to the error state from everywhere, so the sign of char does not matter |
| Grammar.BothGoOn | lib/messageProcessing.rl:128-144 | two alternatives of a deterministic grammar that both read a character have acted on nothing yet and still diverge |
| Grammar.RunMeans | lib/messageProcessing.rl:116-144 | reading character by character finds exactly the words of a deterministic expression, with the over-long-field rules |
| Language.MainMeans | lib/messageProcessing.rl:128-144 | the words of the machine definition are the six commands' messages, spelled out, and the over-long prefixes |
| Language.RecognisesWords | lib/messageProcessing.c:365-548 | a message is answered with a verdict after k characters if and only if those k characters are a word for it |
| Language.UnknownMeansNoWord | lib/messageProcessing.c:536-548 | COMMAND_UNKNOWN from the machine if and only if no prefix is a word |
| Language.PrefixFree | lib/messageProcessing.rl:128-144 | the language is prefix-free and each word has one meaning |
| Language.TrailingIgnored | lib/messageProcessing.c:507-531 | bytes after the word do not matter |
| Fields.StepLegal | lib/messageProcessing.rl:116-118 | actions come in the order init, append, terminate, return, and fields in the order name, length, content |
| MessageProcessing.Protocoll.Append | lib/messageProcessing.c:445-491 | a character goes to the field's buffer if it fits, earlier fields stay, and the shared counter goes up |
| MessageProcessing.Protocoll.Terminate | lib/messageProcessing.c:454-500 | a field that fits is in its buffer with its terminator; names and contents that do not fit are reported |
| MessageProcessing.ValidateSize | lib/messageProcessing.c:172-209 | keeps min(LENGTH, strlen) characters and cuts the content in place, or refuses with 0 |
| MessageProcessing.ListFiles | lib/messageProcessing.c:218-234 | LIST's response is that of the specified reaction |
| MessageProcessing.CreateFile | lib/messageProcessing.c:244-268 | from buffers that hold the fields, CREATE has the specified effect and response |
| MessageProcessing.ReadFile | lib/messageProcessing.c:279-302 | from a buffer that holds the name, READ has the specified response and no effect |
| MessageProcessing.UpdateFile | lib/messageProcessing.c:312-333 | from buffers that hold the fields, UPDATE has the specified effect and response |
| MessageProcessing.DeleteFile | lib/messageProcessing.c:343-353 | from a buffer that holds the name, DELETE has the specified effect and response |
| MessageProcessing.Finish | lib/messageProcessing.c:507-531 | at dispatch the buffers hold exactly the message's fields with their terminators, and the command answers for those |
| MessageProcessing.Act | lib/messageProcessing.c:443-533 | one case of the switch does what the grammar's action means, and stays in the buffers |
| MessageProcessing.RunActions | lib/messageProcessing.c:436-534 | the loop over an action list performs it, and returns in the middle when an action does |
| MessageProcessing.Consume | lib/messageProcessing.c:385-534 | one character: the searches, the new state and the actions together are one step of the reading |
| MessageProcessing.Interpret | lib/messageProcessing.c:365-548 | the whole loop serves the message, for any sound tables |
| MessageProcessing.HandleMessage | lib/messageProcessing.c:355-549 | for every message and every list, the new list and the response are those of the request served alone, with whatever memory holds after the four stored digits of LENGTH |
| Messages.PrintValue | lib/messageProcessing.c:293-293 | reading back a printed decimal gives the number |
| Messages.ValuePrint | lib/messageProcessing.c:174-174 | printing the value of digits without a leading zero gives them back |
| Messages.PrintWidth | lib/messageProcessing.c:227-227 | a number takes at most k digits if and only if it is below ten to the k |
| Messages.VerdictsCarry | lib/messageProcessing.c:507-531 | a dispatched command carries fields of its grammar's classes, names and contents of at most 1024 characters |
| RoundTrip.SpelledIsExecuted | lib/messageProcessing.rl:128-144 | a command's message, whatever follows it, executes that command with exactly its fields |
| RoundTrip.NameTooLong | lib/messageProcessing.c:473-482 | FILENAME_TO_LONG if and only if the message starts with a command whose name has more than 1024 characters and its terminator |
| RoundTrip.ContentTooLong | lib/messageProcessing.c:454-463 | CONTENT_TO_LONG if and only if it starts with a whole CREATE or UPDATE whose name fits and whose content has more than 1024 characters |
| Answers.CreateAnswered | lib/messageProcessing.c:244-268 | with name and content of 1 to 1024 characters: CREATE appends the first min(LENGTH, |content|) characters and is told FILECREATED, or FILEEXISTS if the name is there, or COMMAND_UNKNOWN for a LENGTH of zero; message and response in literal text |
| Answers.UpdateAnswered | lib/messageProcessing.c:312-333 | likewise UPDATE: the first element of that name is replaced in place and the answer is UPDATED, or NOSUCHFILE and nothing changes |
| Answers.SomeNumber | lib/messageProcessing.c:172-174 | every LENGTH comes to a number: its digits, if there are at most four, else the first four and the digits that follow in memory |
| Answers.ReadAnswered | lib/messageProcessing.c:279-302 | READ is told FILECONTENT with name, size and content, or NOSUCHFILE exactly when no element has the name, and changes nothing |
| Answers.DeleteAnswered | lib/messageProcessing.c:343-353 | DELETE takes out the element of that name and is told DELETED, or NOSUCHFILE and nothing changes |
| Answers.ListAnswered | lib/messageProcessing.c:218-234 | LIST is told ACK, the first three digits of the count, and the names in order |
| Answers.SpecialAnswered | lib/messageProcessing.c:527-530 | the fixed request has its fixed response |
| Answers.LongNameAnswered | lib/messageProcessing.c:473-482 | a name of 1025 or more characters before its terminator is told FILENAME_TO_LONG, for each of the four commands, and nothing changes |
| Answers.LongContentAnswered | lib/messageProcessing.c:454-463 | a content of 1025 or more characters is told CONTENT_TO_LONG, whatever the LENGTH, and nothing changes |
| Answers.LongestRead | include/termPaperLib.h:37-49 | a READ response has at most 2067 characters, and exactly that many for a name and a content of 1024 |
| Answers.UnknownAnswered | lib/messageProcessing.c:536-548 | COMMAND_UNKNOWN is the answer if and only if the message starts with no command or with a write whose LENGTH comes to zero, and then nothing changes |
| RoundTrip.MemoryMatters | lib/messageProcessing.c:483-500 | what lies in memory behind the length buffer decides the answer to a command if and only if LENGTH has more than four digits and the number its first four spell is below the content's length |
| RoundTrip.OthersSettled | lib/messageProcessing.c:172-209 | a message whose answer depends on memory starts with such a command |
| RoundTrip.MemoryDecides | lib/messageProcessing.c:172-209 | an instance: with one message, memory decides between a refusal and files of one or two characters |
| RoundTrip.ServeKeepsStore | lib/messageProcessing.c:195-208 | every request keeps names unique and of 1 to 1024 characters in 33..126, and payloads of 1 to 1024 characters in 32..126 with a terminator |
| RoundTrip.ReadFits | include/termPaperLib.h:37-49 | a READ response fits the 2067 characters of MAX_MSG_LEN, and fills it if and only if name and content have 1024 characters |
| RoundTrip.RequestFits | include/termPaperLib.h:37-49 | every well-formed request with at most four LENGTH digits fits MAX_MSG_LEN |
| RoundTrip.ParseReadText | lib/messageProcessing.c:279-302 | parsing a FILECONTENT response gives back the name, the size and the content |
| RoundTrip.WriteStores | lib/messageProcessing.c:172-209 | a successful CREATE or UPDATE leaves the name with the first min(LENGTH, |content|) characters |
| RoundTrip.RoundTrip | lib/messageProcessing.c:244-333 | a successful write, then READ: the response has k and the first k characters, parses back to them, and resubmitting them as an UPDATE leaves the store unchanged |
| RoundTrip.ListDecodes | lib/messageProcessing.c:218-234 | splitting the LIST response at newlines gives the acknowledgement and exactly the names, in list order |
| RoundTrip.CountExact | lib/messageProcessing.c:222-227 | the printed count is right if and only if there are at most 999 files |
| RoundTrip.ListMiscounts | lib/messageProcessing.c:218-234 | after CREATEs of n different files, served one after another, LIST names all n, and its first line counts them if and only if n is at most 999 |
| RoundTrip.ThousandFiles | lib/messageProcessing.c:222-227 | an instance: a thousand files are listed under the count 100 |
| History.HistoryExplains | lib/concurrentLinkedList.c:347-435 | after any history each element comes from the latest successful CREATE of its name, holds the payload of the latest successful write, the list is in the order of those CREATEs, and every other created name was deleted |
| History.Alternate | lib/messageProcessing.c:263-265 | between two successful CREATEs of a name there is a successful DELETE, and each successful DELETE has its own CREATE before it |
| History.OneWinner | lib/concurrentLinkedList.c:347-373 | among CREATEs of a name that nothing deletes exactly the first wins |
| History.ReadsLatest | lib/concurrentLinkedList.c:320-345 | a READ returns the payload of the latest successful write before it, or nothing if and only if the name is not there |
| Server.HistoryServed | server.c:71-96 | serving the requests of a serial history one at a time gives its list, and the responses that its results print |
| Server.ResponsesSerialise | server.c:71-96 | whole-server refinement: under every schedule each response sent is that of handling the requests one at a time in one order |
| Server.FinalStore | server.c:71-96 | when all requests are answered, that one-at-a-time run handles each of them and leaves exactly the list in memory |
| Service.AllAdmitted | server.c:112-131 | every request that arrives is taken in, in the order of arrival |
| Service.EveryoneAnswered | server.c:71-96 | from every moment of every run the scheduler can bring it about, without further arrivals, that every request has been answered, with its answer in the one-at-a-time run |
| Service.ToldTheTruth | lib/messageProcessing.c:244-353 | each finished CREATE, UPDATE, DELETE and READ was told, in literal text, whether its name was there at its place in the serial order, and a READ the content of the latest write |
| Server.OrderDistinct | server.c:71-96 | the one-at-a-time run handles no request twice |
| Server.OrderIsRealTime | server.c:112-131 | a request answered through the list before another arrived comes before it in that order |
| Server.StoreAlways | lib/messageProcessing.c:195-208 | in every run the list that the serial history leaves has unique names of 1 to 1024 characters, and contents of 1 to 1024 characters with a terminator |
| Names.StoreInMemory | lib/messageProcessing.c:195-208 | in every state of every run, in memory: each node's name has 1 to 1024 characters of its class, and unless an UPDATE owns its content mutex its payload is complete, within its limits, and payload_size is the string length plus 1 |
| Server.AnswersAlternate | lib/messageProcessing.c:263-265 | a FILECREATED answer has a successful DELETE between it and each earlier successful CREATE of the name in the serial order, and a DELETED answer has its own successful CREATE before it |
| Server.OneWinnerServed | lib/concurrentLinkedList.c:347-373 | of concurrent CREATEs of a name that no request deletes, once all have returned exactly one was told FILECREATED and the others FILEEXISTS |
| Server.ReadAnswersFit | include/termPaperLib.h:37-49 | in every run the response of each finished READ fits MAX_MSG_LEN |
| Server.ReadsNeverTorn | lib/concurrentLinkedList.c:408-432 | a finished READ has the whole payload of the latest successful write before it in the serial order, although payloads are freed, allocated and copied byte by byte |
| Server.ListsInOrder | lib/messageProcessing.c:218-234 | a finished LIST answers with the names at its place in the serial order, in the order of each name's latest successful CREATE before it |
| Cleanup.FifoAlways | server.c:125-131 | in every run the handles joined, then the list that the serial history leaves without a head already joined, then an append that has not locked the header, are the handles created, in order |
| Cleanup.JoinedInOrder | server.c:155-167 | the handles joined are a prefix of those created: none twice, none skipped |
| Cleanup.RemovesTheJoined | server.c:155-167 | until the removal locks the header, the head of the serial list is the handle just joined, although looking and removing are separate critical sections |
| Joins.FifoInMemory | server.c:125-131 | the same on the nodes: the handles joined, the payloads in the chain but for a head that is joined and not taken out yet, and an append that has not linked its node, are the handles created, in order |
| Joins.FreesTheJoined | lib/concurrentLinkedList.c:157-165 | the node that the cleanup thread takes apart holds the handle it joined last |
| Upkeep.CatchesUp | server.c:155-167 | from every moment of every run, without further connections, all handles created can be joined, the list in memory emptied and the cleanup thread left waiting |
| Upkeep.AnyHandlesJoined | server.c:112-131 | from every moment of every run any handles can be created next, and all then joined, in this order |
| Upkeep.LookDecides | server.c:155-167 | the cleanup thread sleeps exactly when its look came to an empty list, and otherwise joins the handle that was first there |

## Left out

- Sockets, `recv` and `send`, partial reads, the client, the test driver, logging and option parsing: requests start as a complete message and end as a response string.
- Failure of pthread calls, of `malloc` and of `accept`: locking, allocating and joining succeed.
- Fairness under an endless stream of new calls: deadlock freedom and bounded work are for finite sets of calls.
- The list class has no locks: `LinkedList` covers the pointer walks one call at a time, `Machine` the locking.
- Building a node in `createElement` is one step of `Machine`: no other thread can see the node yet.
- Payloads are values: the extra dereference of the thread handle (`server.c:128`, `lib/concurrentLinkedList.c:124`) is modelled as the intended copy.
- A client's list of characters is a Dafny string. `OtherBytesRejected` shows that values outside 0..126 are all alike to the parser, signed or not.
- `buflen` is an unbounded number; the loop proves that it never exceeds the number of characters read.
- Server.ResponsesSerialise: the requests that never touch the list are placed at the end of the one-at-a-time run; `OrderIsRealTime` orders the others by real time.
- Messages.Atoi: reads the number that the digits spell, however many; C leaves undefined what `atoi` makes of one that an `int` cannot hold.
- Order.GrantedInEntryOrder: assumes that the element is not freed between the two points, because `malloc` may hand its address out again for another element.
- Leaks of intermediate strings in `join_with_seperator`, and the help texts.
- That the scheduler ever runs a thread, and that clients ever read their responses.
