# Word COM bridge and run normalisation, modelled in Dafny

This project models two parts of the Word plug-in repository.

The first is the COM bridge in `server/COM/main.cpp`. It is a Windows
process that keeps a WebSocket open to the plug-in's server and queues each
command it receives as a `Task`. On every pass of its main loop it watches
the running Word for a manual save and runs every queued save or replace
against the active document, answering each one. The model covers:

- the hand-written JSON reader (`JsonParser`) and `escapeJson`;
- the turning of a parsed message into a `Task`, and the task queue;
- the `WordAutomation` methods, with every COM call made through an oracle;
- `WebSocketClient`'s `connected` flag and how `Receive` reassembles a message;
- `main`'s receive thread and main loop, one pass at a time.

The second is `normalize_runs` in `frontend/lib/diffscripts/Heidegger.py`.
It merges neighbouring runs of a paragraph that have the same formatting,
then drops the runs left without text. It works on the caller's own
dictionaries: it extends the text of the first run of each group in place.

The modules are:

- `Base`: an `Option` type and a regrouping lemma.
- `Json`: the parser as pure functions over a cursor into a C string, and the `JsonParser` class whose methods walk the cursor and are proved equal to those functions. It also holds the escaper.
- `JsonProps`: what the reader and the escaper promise about each other, and the inputs on which the reader misbehaves.
- `Protocol`: the three messages the bridge sends, written out as the bridge concatenates them, and read back by the bridge's own reader.
- `Tasks`: `Task`, the extraction of a task from a parsed message, and `TaskQueue`.
- `Host`: the outside world (Word over COM, the file system, base64 decoding, WinHTTP). Each call is an oracle whose answer is recorded in a ghost call log.
- `Word`: `WordAutomation`. Every method states the exact sequence of calls it makes, as a function of what the calls answered, together with the new values of `initialized` and `lastSavedState`. The module also holds the path comparison of `CheckPath` and the save detector of `CheckSavedState`.
- `WebSocket`: message reassembly over a stream of receive buffers, and `WebSocketClient`.
- `Bridge`: `main` as a `Program` class. `ReceiveStep` is one pass of the receive thread; `Cycle` is one pass of the main loop.
- `Runs`: `normalize_runs`, on values and on mutable run dictionaries.

Where the code and the design description disagree, the model follows the code:

- **Initial save state.** `lastSavedState` starts at `true`, not at the first reading. This gives the same firings: the first reading never fires and only becomes the stored reading (`Word.FirstReadingOnlyStores`).
- **Malformed input.** It never produces a parse error. The reader always returns a value, loops forever, or reads past the terminating NUL. The model names the last two outcomes (`Diverges`, `Overrun`).
- **Other actions.** An action other than `save` or `replace` is queued and then dropped with no response. There is no "unsupported action" error.
- **4096-byte messages.** A complete message of exactly 4096 bytes is not recognised as complete. `Receive` reads on and appends the next message to it (`WebSocket.FullBufferJoinsNext`).
- **Failed connect.** `WebSocketClient::Connect` does not clear `connected` when it fails. Only `Close` clears it.
- **Normalising twice.** Dropping empty runs can leave two runs with the same formatting side by side, so normalising again can change the result (`Runs.FilterMayJoinNeighbours`).

## Model

| member | source | states |
|---|---|---|
| Json.Skip | server/COM/main.cpp:49 | skipSpace stops at the first position at or after the cursor that is not white space, never past the terminator |
| Json.Sep | server/COM/main.cpp:109-115 | stepping over white space, an optional separator and white space again never moves the cursor back or past the terminator |
| Json.CString | server/COM/main.cpp:97 | what strtod sees is the C string from the cursor, never longer than the text left |
| Json.StringFrom | server/COM/main.cpp:65-91 | parseString either yields a string value with the cursor inside the text, or reads past the terminator |
| Json.ValueAt | server/COM/main.cpp:51-63 | parseValue never moves the cursor back, and at most one place past the terminator |
| Json.ObjectAt | server/COM/main.cpp:102-119 | parseObject, when it returns, has consumed at least the opening brace and stays inside the text |
| Json.ArrayAt | server/COM/main.cpp:121-134 | parseArray, when it returns, has consumed at least the opening bracket and stays inside the text |
| Json.ElementsFrom | server/COM/main.cpp:126-131 | the element loop ends inside the text; an iteration that does not move the cursor makes it loop forever |
| Json.JsonParser.Parse | server/COM/main.cpp:42-46 | parse skips leading white space and returns exactly the value the reader function gives for the message |
| Json.JsonParser.SkipSpace | server/COM/main.cpp:49 | the cursor ends at the first non-space position |
| Json.JsonParser.ParseValue | server/COM/main.cpp:51-63 | the method's result and cursor are those of the reader function, branch by branch, including the one-character skip of an unknown character |
| Json.JsonParser.ParseString | server/COM/main.cpp:65-91 | the loop decodes escapes and drops `\u` with its four digits; its result and cursor are those of the reader function |
| Json.JsonParser.ParseNumber | server/COM/main.cpp:93-100 | the cursor moves by what strtod consumes, and a number value results |
| Json.JsonParser.SkipPast | server/COM/main.cpp:109-111 | white space, an optional separator and white space are stepped over |
| Json.JsonParser.ParseObject | server/COM/main.cpp:102-119 | the member loop gives the object the reader function gives, a later key overriding an earlier one |
| Json.JsonParser.ParseArray | server/COM/main.cpp:121-134 | the element loop gives the array the reader function gives, or reports that it never ends |
| Json.EscapeAppend | server/COM/main.cpp:137-148 | escaping works character by character: the escape of a concatenation is the concatenation of the escapes |
| Json.EscapeJson | server/COM/main.cpp:137-148 | the loop returns the escape of the whole string, character by character |
| JsonProps.EscapeReadBack | server/COM/main.cpp:65-91 | parseString reads an escaped NUL-free string back as itself and stops just after the closing quote |
| JsonProps.EscapeCharReadBack | server/COM/main.cpp:70-86 | parseString reads the escape of one character back as that character |
| JsonProps.QuotedReadBack | server/COM/main.cpp:137-148 | parse of a quoted escaped string returns that string and consumes the whole text, whatever strtod would do |
| JsonProps.QuotedStringFrom | server/COM/main.cpp:68-88 | parseString, started after the opening quote, reads an escaped string back and stops after the closing quote |
| JsonProps.EscapeLength | server/COM/main.cpp:137-148 | escaping adds exactly one character per quote, backslash, line feed, carriage return or tab |
| JsonProps.EscapeIdentity | server/COM/main.cpp:137-148 | escaping changes a string if and only if it holds one of those five characters |
| JsonProps.PlainUnchanged | server/COM/main.cpp:145 | a string with none of the five characters is left as it is |
| JsonProps.SpecialCounted | server/COM/main.cpp:140-144 | a string that holds one of the five characters has a positive count of them |
| JsonProps.EscapeNoRawBreaks | server/COM/main.cpp:142-144 | escaped text never holds a raw line feed, carriage return or tab |
| JsonProps.EscapedQuotes | server/COM/main.cpp:140 | every quote in escaped text comes right after a backslash |
| JsonProps.ValueStalls | server/COM/main.cpp:51-63 | parseValue leaves the cursor where the value starts if and only if a number starts there that strtod does not accept |
| JsonProps.UnknownSkipped | server/COM/main.cpp:61 | a character that starts no value reads as null and is stepped over |
| JsonProps.DashArrayDiverges | server/COM/main.cpp:126-131 | on `[-]` the element loop never advances, so parse never returns |
| JsonProps.TrailingBackslashOverruns | server/COM/main.cpp:71-86 | a string whose last character is a backslash makes parseString read past the terminator |
| JsonProps.UEscapeOverruns | server/COM/main.cpp:81-86 | a `\u` with fewer than four characters after it makes parseString read past the terminator |
| JsonProps.ValueAtQuote | server/COM/main.cpp:54 | parseValue on a quote reads a string from the next character |
| JsonProps.KeyTurn | server/COM/main.cpp:108-111 | a turn of the member loop on a quoted key reads the key and steps over the colon |
| JsonProps.ValueTurn | server/COM/main.cpp:112-115 | the rest of the turn stores the value under the key and steps over the comma |
| JsonProps.MemberTurn | server/COM/main.cpp:107-116 | a whole turn on a quoted key and a quoted value stores the member and goes on after the comma |
| JsonProps.MembersClose | server/COM/main.cpp:117 | the member loop stops at a closing brace and consumes it |
| JsonProps.DecodeObject | server/COM/main.cpp:42-46 | parse of text that opens with a brace runs the member loop from the next character |
| Protocol.PairLayout | server/COM/main.cpp:108-112 | in an escaped member, the key, the colon and the value sit where parseObject reads them |
| Protocol.MemberThen | server/COM/main.cpp:107-116 | an escaped member followed by a comma is stored, and the loop goes on after the comma |
| Protocol.MemberLast | server/COM/main.cpp:107-118 | the last escaped member is stored, and the loop stops after the closing brace |
| Protocol.MemberStep | server/COM/main.cpp:107-116 | a key, a colon, a string value and a comma before the next key's quote: the member is stored and the loop goes on after the comma |
| Protocol.LastStep | server/COM/main.cpp:107-118 | a key, a colon, a string value and the closing brace: the member is stored and the object ends after the brace |
| Protocol.MembersLaid | server/COM/main.cpp:548 | the text of the members and the closing brace is laid out member by member |
| Protocol.MembersReadBack | server/COM/main.cpp:107-118 | the member loop reads back every escaped member of a flat object and stops after the brace |
| Protocol.ObjectReadBack | server/COM/main.cpp:102-119 | a flat object of escaped NUL-free strings decodes to exactly its members, consuming the whole text |
| Protocol.TwoReadBack | server/COM/main.cpp:102-119 | a two-member object of plain strings reads back as its two members |
| Protocol.ThreeReadBack | server/COM/main.cpp:102-119 | a three-member object whose last value is escaped reads back as its three members |
| Protocol.FourReadBack | server/COM/main.cpp:102-119 | a four-member object of plain strings reads back as its four members |
| Protocol.SavedEventReadBack | server/COM/main.cpp:548 | the saved event, read back by the bridge's own reader, carries the path that was escaped into it |
| Protocol.ResponseReadBack | server/COM/main.cpp:586 | a response reads back with its id and its status |
| Protocol.PathMismatchReadBack | server/COM/main.cpp:577 | the refusal of a replace reads back as an error with the mismatch message |
| Protocol.PlainWords | server/COM/main.cpp:548-586 | the fixed words around the id and the path are left alone by escaping |
| Tasks.Member | server/COM/main.cpp:519-520 | reading a member gives the stored value, or null for a missing key or a value that is not an object |
| Tasks.CheckPathOf | server/COM/main.cpp:530-535 | a check path is read only when the payload has `options` and the options hold `checkPath`, and then it is that member's string |
| Tasks.ToTask | server/COM/main.cpp:518-542 | a message becomes a task if and only if it is an object with a non-empty action; the id is the action's sibling; content, type and check path are read only for a replace, each from its member of the payload (`checkPath` from its options); missing fields read as empty |
| Tasks.TaskQueue.constructor | server/COM/main.cpp:492 | the queue starts empty |
| Tasks.TaskQueue.IsEmpty | server/COM/main.cpp:562 | the queue is empty if and only if it holds no task |
| Tasks.TaskQueue.Push | server/COM/main.cpp:540 | a task is added at the back |
| Tasks.TaskQueue.Pop | server/COM/main.cpp:563-564 | the front task is taken and the rest keep their order |
| Word.NormPath | server/COM/main.cpp:291-295 | normalising a path keeps its length |
| Word.PathsMatchPointwise | server/COM/main.cpp:288-303 | two paths match if and only if they have the same length and agree character by character after lowercasing and turning `/` into `\` |
| Word.NormIdempotent | server/COM/main.cpp:291-295 | normalising twice changes nothing more, so a path matches its normal form |
| Word.PathsMatchEquivalence | server/COM/main.cpp:299 | the path comparison is reflexive, symmetric and transitive |
| Word.PathsMatchExample | server/COM/main.cpp:288-303 | case and separator kind do not matter, a missing character does |
| Word.NormalizeInPlace | server/COM/main.cpp:292-295 | the two in-place passes, lowercase and then separator replacement, leave the normal form of the path in the buffer |
| Word.Normalized | server/COM/main.cpp:288-295 | the copy of the path is normalised |
| Word.Firings | server/COM/main.cpp:248-252 | the detector gives one verdict per reading, the first one from the stored reading |
| Word.FiringsExample | server/COM/main.cpp:248-252 | the readings false, false, true, true, false, true fire on the third and the sixth only |
| Word.FirstSavedReadingSilent | server/COM/main.cpp:183 | since the stored reading starts true, a first reading of saved never fires |
| Word.FirstReadingOnlyStores | server/COM/main.cpp:183 | starting the stored reading at true gives the firings of starting at the first reading: that reading does not fire and becomes the stored one |
| Word.FiringAt | server/COM/main.cpp:246-253 | a reading fires if and only if it is saved and the latest earlier real reading, or the start value, is unsaved |
| Word.NoDoubleFiring | server/COM/main.cpp:246-253 | between two firings there is a reading of unsaved |
| Word.StoredAfterTrue | server/COM/main.cpp:252 | after a saved reading the stored reading stays true until an unsaved one comes |
| Word.StoredSplit | server/COM/main.cpp:246-253 | a failed reading leaves the stored reading as it was; a real one replaces it |
| Word.TempFileNames | server/COM/main.cpp:324-328 | the temporary file ends in `.html`, `.docx` or `.txt` after the content type |
| Word.PrepareQuiet | server/COM/main.cpp:320-348 | before the document is touched, only the probe, the temporary directory, the decoder and the file writes are used |
| Word.DecodeFailureUntouched | server/COM/main.cpp:330-340 | a base64 payload that does not decode fails the replace and leaves the document alone |
| Word.PrepareNoSwap | server/COM/main.cpp:320-348 | nothing is deleted and no file is inserted before the document is reached |
| Word.DeleteNeedsDocument | server/COM/main.cpp:365-388 | a replace deletes only when it is connected, the file is written, and the document and its content are reached |
| Word.TrackingOffAroundInsert | server/COM/main.cpp:365-388 | a replace that deletes anything ends with tracking off, accept revisions, delete, InsertFile, tracking off, and deleted nothing before |
| Word.ReplacedIffInserted | server/COM/main.cpp:385-394 | ReplaceDocument succeeds if and only if InsertFile of its temporary file succeeded |
| Word.WordAutomation.constructor | server/COM/main.cpp:182-191 | a new object is not initialized, its stored reading is true and no callback is set |
| Word.WordAutomation.SetCallback | server/COM/main.cpp:547 | main sets the save callback |
| Word.WordAutomation.IsConnected | server/COM/main.cpp:218-231 | without a connection nothing is called; otherwise the version is probed and a failure drops the connection |
| Word.WordAutomation.CheckSavedState | server/COM/main.cpp:233-255 | the exact calls made, the new stored reading (kept when there is none) and the path the callback gets on an unsaved-to-saved change |
| Word.WordAutomation.OnSaved | server/COM/main.cpp:257-268 | the full name is read only when a callback is set |
| Word.WordAutomation.Connect | server/COM/main.cpp:198-216 | a no-op when connected; otherwise attaching is tried and, if it works, a first reading is taken |
| Word.WordAutomation.CheckPath | server/COM/main.cpp:270-304 | true if and only if Word is connected, has an active document whose full name can be read, and that name matches the target |
| Word.WordAutomation.SaveDocument | server/COM/main.cpp:306-317 | true if and only if Word is connected, has an active document and Save succeeded |
| Word.WordAutomation.ReplaceDocument | server/COM/main.cpp:319-395 | the exact calls made and the result: true if and only if the file was written and InsertFile succeeded |
| Word.WordAutomation.Prepare | server/COM/main.cpp:320-348 | the probe, the temporary file name, and the file written unless base64 decoding failed |
| Word.WordAutomation.WriteTemp | server/COM/main.cpp:330-348 | a base64 payload is decoded and written in binary; any other is written as text |
| Word.WordAutomation.SwapContent | server/COM/main.cpp:350-394 | the active document and its content range are needed; a success implies both were obtained |
| WebSocket.ReassembleFrom | server/COM/main.cpp:463-475 | the receive loop, when it returns, has read at least one buffer and no more than the stream holds |
| WebSocket.DeliveredMeaning | server/COM/main.cpp:463-478 | a delivered message is the text of the buffers read: every buffer but the last continues it and the last completes it |
| WebSocket.LostMeaning | server/COM/main.cpp:465-472 | a lost message ends at a failed read or a close buffer, after buffers that all continued it |
| WebSocket.BlockedMeaning | server/COM/main.cpp:475 | the loop waits for more if and only if every buffer in sight continues the message |
| WebSocket.ReassembleExtend | server/COM/main.cpp:463-475 | what follows the buffers a returned call used does not change its outcome |
| WebSocket.FragmentsJoined | server/COM/main.cpp:474-475 | fragments followed by a final short buffer come back as one message |
| WebSocket.FullBufferJoinsNext | server/COM/main.cpp:475 | a complete message of exactly 4096 bytes is joined to the next message |
| WebSocket.WebSocketClient.constructor | server/COM/main.cpp:404 | a new client is not connected |
| WebSocket.WebSocketClient.Close | server/COM/main.cpp:411-421 | the client is no longer connected |
| WebSocket.WebSocketClient.Connect | server/COM/main.cpp:423-447 | a success sets connected; a failure leaves it as it was |
| WebSocket.WebSocketClient.Send | server/COM/main.cpp:449-453 | nothing goes out and false is returned unless connected |
| WebSocket.WebSocketClient.Receive | server/COM/main.cpp:455-479 | false unless connected; otherwise the reassembled message and the buffers consumed, with a failed read or a close buffer closing the client |
| Bridge.Program.constructor | server/COM/main.cpp:495-551 | main's objects start disconnected, with the callback set and an empty queue |
| Bridge.Program.Execute | server/COM/main.cpp:566-588 | one task makes its calls into Word and then sends its answer; the connection flag moves as those calls say |
| Bridge.Program.Work | server/COM/main.cpp:568-588 | a save and a replace call for an answer, every other action for none |
| Bridge.Program.ReplaceTask | server/COM/main.cpp:573-588 | a replace whose path check fails is refused with the mismatch answer; otherwise the replace runs |
| Bridge.Program.SwapTask | server/COM/main.cpp:583-584 | the save follows only a successful replace |
| Bridge.Program.Drain | server/COM/main.cpp:560-590 | the queue is emptied, oldest task first, and the calls made are those of the tasks in order |
| Bridge.Program.RunNext | server/COM/main.cpp:562-588 | one more task is popped and run, extending the calls made |
| Bridge.Program.Watch | server/COM/main.cpp:547-558 | the look at Word, then the saved event if the detector fired |
| Bridge.Program.Look | server/COM/main.cpp:554-558 | IsConnected, then CheckSavedState when connected and Connect when not |
| Bridge.Program.Reattach | server/COM/main.cpp:555 | Connect on a disconnected Word attaches and takes a first reading, or changes nothing |
| Bridge.Program.Cycle | server/COM/main.cpp:553-593 | one pass of the main loop: the watch, then the drain, with the calls made, the stored Saved reading and the connection flag left for the next pass |
| Bridge.Program.ReceiveStep | server/COM/main.cpp:504-545 | one pass of the receive thread: connect if needed, receive, parse, and queue a task if the message is one |
| Bridge.DrainStep | server/COM/main.cpp:562-588 | running the next task appends its calls and moves the flag on |
| Bridge.DrainExtend | server/COM/main.cpp:562-588 | the calls after one more task, in terms of the tasks run so far |
| Bridge.SentAppend | server/COM/main.cpp:572 | the messages sent by two runs of calls are those of the first, then those of the second |
| Bridge.SentQuiet | server/COM/main.cpp:572 | calls that send nothing add no message |
| Bridge.ReplaceQuiet | server/COM/main.cpp:319-395 | ReplaceDocument sends nothing on the socket |
| Bridge.WorkQuiet | server/COM/main.cpp:568-584 | the work in Word for one task sends nothing on the socket |
| Bridge.TaskSends | server/COM/main.cpp:568-588 | on a connected socket, one task sends exactly its rendered answer and nothing else |
| Bridge.DrainSends | server/COM/main.cpp:560-590 | on a connected socket, draining the queue sends exactly the tasks' answers, rendered, in queue order |
| Bridge.RepliesInOrder | server/COM/main.cpp:562-588 | every save and replace is answered once, with its own id, in queue order, and no other task is |
| Bridge.SaveStatus | server/COM/main.cpp:568-572 | a save is answered with success if and only if Word's Save call succeeded |
| Bridge.MismatchRefused | server/COM/main.cpp:574-580 | a replace whose path check fails gets the mismatch error and only reads Word's state |
| Bridge.ReplaceStatus | server/COM/main.cpp:583-587 | a checked replace succeeds if and only if its InsertFile succeeded; the save after it does not change the answer |
| Bridge.CheckAndReplaceDontSave | server/COM/main.cpp:574-583 | neither the path check nor the replace saves the document |
| Bridge.SaveOnlyAfterReplace | server/COM/main.cpp:583-584 | a replace saves the document only after it succeeded, and is then answered with success |
| Bridge.ReplaceThenSave | server/COM/main.cpp:583-587 | a replace answered with success passed its check, and its calls end with SaveDocument's after ReplaceDocument's |
| Bridge.OtherIgnored | server/COM/main.cpp:568-588 | any other action makes no call, gets no answer and changes nothing |
| Bridge.LookSilent | server/COM/main.cpp:554-558 | looking at Word sends nothing |
| Bridge.WatchSends | server/COM/main.cpp:547-558 | on a connected socket, the saved event goes out if and only if the detector fired with a callback and a readable path |
| Bridge.SaveCommandQueued | server/COM/main.cpp:516-541 | the save command as the server writes it becomes a save task with its id |
| Bridge.SaveObjectTask | server/COM/main.cpp:518-541 | the object a save command parses to becomes a save task with its id and empty payload fields |
| Runs.KeysDecide | frontend/lib/diffscripts/Heidegger.py:47-50 | two styles agree on every key but `text` if and only if they are the same style |
| Runs.SameStyle | frontend/lib/diffscripts/Heidegger.py:46-50 | the key loop, stopping at the first difference, finds a match if and only if the styles are equal |
| Runs.CoalesceFrom | frontend/lib/diffscripts/Heidegger.py:41-59 | coalescing gives at least one run and at most one per input run, and the first keeps the current run's style |
| Runs.NonEmpty | frontend/lib/diffscripts/Heidegger.py:62 | the filter keeps no more runs than it got, and only runs with text |
| Runs.NormalizeEmpty | frontend/lib/diffscripts/Heidegger.py:35-36 | no runs in, no runs out |
| Runs.CoalesceText | frontend/lib/diffscripts/Heidegger.py:41-59 | coalescing keeps the whole text, in order |
| Runs.NonEmptyText | frontend/lib/diffscripts/Heidegger.py:62 | the filter keeps the whole text, in order |
| Runs.TextAppend | frontend/lib/diffscripts/Heidegger.py:55 | the text of two series of runs is the text of the first, then of the second |
| Runs.NormalizeText | frontend/lib/diffscripts/Heidegger.py:34-62 | normalising keeps the paragraph's text exactly |
| Runs.NormalizeShape | frontend/lib/diffscripts/Heidegger.py:34-62 | normalising never adds runs, and every run it returns has text |
| Runs.CoalesceSeparates | frontend/lib/diffscripts/Heidegger.py:41-59 | after coalescing, neighbouring runs differ in formatting |
| Runs.FirstRunKept | frontend/lib/diffscripts/Heidegger.py:42-43 | the first coalesced run has the first run's formatting and starts with its text |
| Runs.FirstTextKept | frontend/lib/diffscripts/Heidegger.py:52-53 | a run's text is only ever extended, never cut |
| Runs.FilterMayJoinNeighbours | frontend/lib/diffscripts/Heidegger.py:58-62 | dropping an empty run between two same-style runs leaves them adjacent, so normalising again merges them |
| Runs.RunDict.constructor | frontend/lib/diffscripts/Heidegger.py:17-25 | a run dictionary holds its text and its formatting |
| Runs.HoldsValues | frontend/lib/diffscripts/Heidegger.py:34-62 | the dictionaries hold given contents entry by entry if and only if their contents are those values |
| Runs.Visit | frontend/lib/diffscripts/Heidegger.py:45-56 | a run of the same style is appended to the current run's text in place; otherwise the current run is closed and the run becomes current |
| Runs.Pass | frontend/lib/diffscripts/Heidegger.py:41-56 | one turn of the loop, including the first, which only takes the run as current, keeps the coalescing invariant |
| Runs.Passes | frontend/lib/diffscripts/Heidegger.py:41-56 | the loop over every run keeps the coalescing invariant |
| Runs.Close | frontend/lib/diffscripts/Heidegger.py:58-59 | the last current run is appended; the list then holds the coalesced runs |
| Runs.CoalesceRuns | frontend/lib/diffscripts/Heidegger.py:38-59 | the list holds the coalesced values of the input; its entries are input dictionaries; only those entries have their text changed, and texts only grow |
| Runs.KeepNonEmpty | frontend/lib/diffscripts/Heidegger.py:62 | the filter keeps exactly the dictionaries with text, in order |
| Runs.KeepOne | frontend/lib/diffscripts/Heidegger.py:62 | one turn of the filter keeps the dictionary when it has text, and only dictionaries of the list are kept |
| Runs.KeepStep | frontend/lib/diffscripts/Heidegger.py:62 | filtering one more run appends it exactly when it has text |
| Runs.NormalizeRuns | frontend/lib/diffscripts/Heidegger.py:34-62 | the result's contents are the normal form of the input's contents; each result entry is one of the caller's dictionaries; a dictionary not returned keeps its text |

## Left out

- Strings: in `Json`, `Tasks`, `Protocol`, `Host`, `Word`, `WebSocket` and `Bridge` a `string` holds one `char` per byte of the C++ string (UTF-8 as sent and received). So lengths, the 4096-byte receive buffer and the four characters `\u` skips all count bytes. Decoding UTF-8 into characters is not modelled, since the bridge never does it.
- Threads and the mutex: the receive thread and the main loop are methods for one pass each, and a caller interleaves them. `Sleep`, `Log`, `running` and the final `join` are left out.
- The WinHTTP handles, the COM dispatch pointers and `AutoWrap`: each call into Word, the file system or WinHTTP is an oracle in `Host.Env`, recorded with its answer. `CoInitializeEx`, `Release` and the destructors are left out.
- The callback `onSaveCallback` is a flag plus the path `CheckSavedState` returns; `Bridge.Program.Watch` does the send the callback would do.
- Json.JsonParser.ParseNumber: strtod is an opaque `Scanner` that says how far it moves the cursor; the number's value is not kept, since nothing in the bridge reads it.
- Json.JsonParser.Parse: a read past the terminating NUL is reported as `Overrun`, and an array loop that stops advancing is reported as `Diverges`, instead of being run.
- Word.WordAutomation.WriteTemp: the two `CryptStringToBinaryA` calls (sizing, then decoding) are one oracle call, and the base64 decoding itself and the file contents are not modelled.
- Word.WordAutomation.CheckPath: a path longer than the `MAX_PATH` buffer makes `WideCharToMultiByte` fail; its result is not checked, and the possibly unterminated buffer is then read (undefined behaviour). Not modelled: the path is used as Word returned it, converted to UTF-8.
- Word.WordAutomation.OnSaved: the same holds for a path longer than the 2048-byte buffer. Not modelled: the path is used as Word returned it, converted to UTF-8.
- Word.Lower: `tolower` is modelled for the C locale only (`A`-`Z`).
- Word.WordAutomation.Connect: `CLSIDFromProgID`, `GetActiveObject` and `QueryInterface` are one oracle call.
- WebSocket.WebSocketClient.Connect: the session, connect, request, upgrade-option, send, response and upgrade steps are one oracle call; the handles leaked on a partial failure are not modelled.
- WebSocket.WebSocketClient.Receive: the stream of buffers is a finite look-ahead; a call that runs out of it mid-message is `Pending` and consumes nothing, instead of blocking.
- Protocol.ResponseReadBack: the read-back is proved only for ids that escaping would leave alone, since the bridge writes the id without escaping it.
- Runs.NormalizeRuns: requires the input dictionaries to be distinct objects. The only caller builds a fresh dictionary for every run; aliased dictionaries are not modelled.
- Run formatting: the keys are the six keys get_run_style writes, and a run's formatting does not change; only `text` is written by normalize_runs. `underline` is None, True, False or a WD_UNDERLINE member named by its number; a member that compares equal to True or False in Python is not identified with it.
- `extract_content`, `compare_docs`, the Flask endpoints and python-docx are not part of this model.
