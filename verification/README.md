# Verification of Chromium `base/`

A Dafny model of the stateful, concurrent and arithmetic parts of `base/`, with proofs
about every run, every input or every state of each. `dafny verify dfyconfig.toml` checks
the whole project.

| file | what it models |
|---|---|
| `ObserverList.dfy` | the re-entrant observer list and its iterators, changed in place |
| `ReentrantIteration.dfy` | any nesting of iterations and changes, against a registry of numbered registrations |
| `ListClient.dfy` | one list object and any number of iterator objects, called in any order |
| `ObserverListThreadSafe.dfy` | the cross-thread observer list: any interleaving of critical sections, posted tasks and re-entrant calls |
| `NotificationHistory.dfy`, `NotificationDelivery.dfy` | who is called and who is not, told from the calls of AddObserver, RemoveObserver and Notify alone |
| `ThreadSafeObjects.dfy`, `SharedObserverList.dfy` | the same steps carried out in place, on context objects that hold real list and iterator objects |
| `Md5Spec.dfy`, `Md5Transform.dfy`, `Md5.dfy` | RFC 1321, and the unrolled, streaming implementation of it |
| `Sha1Spec.dfy`, `Sha1.dfy` | FIPS 180-3 SHA-1, and the implementation that works inside one union |
| `Words.dfy`, `Blocks.dfy` | words, bytes, blocks and padding, shared by the hashes |
| `ArgvQuoting.dfy`, `ArgumentsString.dfy` | Windows quoting of arguments, against the Microsoft splitting rules |
| `CommandLine.dfy` | POSIX command lines: parsing, appending, the switch map, and what of it survives in argv |
| `PickleWire.dfy`, `Pickle.dfy` | the bytes of a pickle, reading them, and the classes that write and read |
| `PathService.dfy` | the path service with its cache, against the service without one |
| `PathMeaning.dfy` | what its answers mean, told from the requests made so far |
| `IdMap.dfy` | the id map with deferred removal and owned pointers |
| `IdMapIterators.dfy` | any number of iterators of one map, nested, copied and mixed with changes |
| `LazyInstance.dfy` | one-word lock-free once-initialisation by any number of threads |
| `Environment.dfy` | POSIX `AlterEnvironment`: meaning and memory layout |
| `RandUtil.dfy` | rejection sampling and integers in a range |
| `PendingTask.dfy` | the order of delayed tasks across 32-bit roll-over |
| `Wrappers.dfy`, `Sequences.dfy` | `Option`, and facts about concatenation and slices |

Each part has the same plan. Functions say what an operation does to a state; classes and
methods change their fields as the source does and are proved to do exactly that; lemmas
then prove of the functions what the source is for, as far as possible in terms of the
calls made and not of the functions themselves. Where the source promises something
that does not always hold, the exact condition is proved (a sufficient one where `Left out`
says so), with an input on which it fails.

Conventions: a 64-bit little-endian host; atomics and locks are sequentially consistent;
what `DCHECK` demands of callers is a precondition, and what `NOTREACHED` lets through is
modelled; time, files, randomness, memory addresses and what client callbacks do are
arbitrary parameters.

What the proofs found where code and comment, or code and expectation, part ways:

* `pickle.h` says that after a failed read nothing more can be read. That holds except when
  the length of a 16-bit string overflows: then the iterator stays behind the length
  (`FailedReadsStick`, `OverflowDoesNotStick`).
* A command line built with `AppendSwitch` is what its argv says exactly when no switch has
  `=` in its name or white space at the end of its text, none is a prefix alone, and the
  program and arguments are trimmed and hold no switch (`CommandLineTravelsIff`).
* Re-initialising a command line from its own argv changes it exactly when some switch was
  written with `=` and nothing after it and has a name that ends in white space or is only
  a prefix (`NormalFormIsStable`, `EmptySwitchIsNotStable`).
* `IDMap::Clear` outside iteration leaves a map of external pointers as it is
  (`ClearEmptiesIff`).
* `PathService::RegisterProvider` leaves the cache alone, so a cached answer that had asked
  for one of the new keys stays, for any two keys (`StaleAfterRegister`).
* Applying the same environment changes twice can accumulate lines when a key contains `=`
  (`AlteringTwice`, `EqualsInKeyAccumulates`).
* `GetArgumentsStringInternal` does not quote the names of switches, so a name with a blank
  or a quote does not come back (`ArgumentsComeBackIff`).
* Writing to a copy of a pickle that wrapped received bytes replaces what was received, since
  the copy's write offset is zero (`WriteAppendsAtEnd`, `WriteToCopy`).
* The comparison of pending tasks stops being an order when posting numbers span half the
  32-bit circle (`TieIsRightIff`, `WrapMisorders`).

## Model

| member | source | states |
|---|---|---|
| ObserverList.AddKeepsOrder | base/observer_list.h:157-166 | Adding puts a new observer at the end of the list an outsider sees and an observer already there nowhere; no observer ever occupies two slots. |
| ObserverList.RemoveFromContents | base/observer_list.h:168-180 | Removing takes exactly that observer out of the visible list, order kept, whether the slot is nulled or erased. |
| ObserverList.RemoveKeepsShape | base/observer_list.h:168-180 | During iteration a removal shifts no slot, at most nulls one; outside it leaves no null; duplicates never arise. |
| ObserverList.ClearEmpties | base/observer_list.h:192-202 | Clearing leaves an empty list, by nulling every slot in place while iterating and by emptying the vector otherwise. |
| ObserverList.CompactKeepsContents | base/observer_list.h:204-209 | Compaction drops exactly the nulls: the visible list and its order stay, and no null is left. |
| ObserverList.ObserverListBase.AddObserver | base/observer_list.h:157-166 | In place: the visible list becomes the old one with the observer at the end, or stays if it was there. |
| ObserverList.ObserverListBase.RemoveObserver | base/observer_list.h:168-180 | In place: the search loop finds the slot, and the visible list loses exactly that observer. |
| ObserverList.ObserverListBase.HasObserver | base/observer_list.h:182-190 | True exactly for the members of the visible list. |
| ObserverList.ObserverListBase.Clear | base/observer_list.h:192-202 | In place: nothing is visible afterwards, and live iterators keep their positions. |
| ObserverList.ObserverListBase.Compact | base/observer_list.h:204-209 | In place: the nulls go, the contents and their order stay. |
| ObserverList.Iterator.constructor | base/observer_list.h:129-137 | The depth goes up by one, and the range is fixed at the current size only for NOTIFY_EXISTING_ONLY. |
| ObserverList.Iterator.GetNext | base/observer_list.h:145-155 | Returns the first occupied slot at or after the index within the range, null at the end or when the list has been destroyed. |
| ObserverList.Iterator.Destroy | base/observer_list.h:139-143 | The depth goes down by one, and only at depth zero are the nulls squeezed out; a destroyed list is left alone. |
| ReentrantIteration.StepRefines | base/observer_list.h:129-209 | Every add, remove, clear, begin, GetNext and end, with any number of iterators live, does what the registry of numbered registrations does, and keeps the correspondence. |
| ReentrantIteration.RunRefines | base/observer_list.h:129-209 | Every run of the list returns what a run of the registry returns; the depth is the number of live iterators, there are no nulls at depth zero, and both hold the same observers. |
| ReentrantIteration.DeliveryIsExact | base/observer_list.h:145-166 | Each delivery is of something registered at that moment, later in insertion order than all this iterator delivered before, admitted by the notification type, and skips nothing still registered. |
| ReentrantIteration.StayersDeliveredOnce | base/observer_list.h:145-155 | What was registered when an iteration began and was not removed is delivered exactly once by its end. |
| ReentrantIteration.RemovedNeverDelivered | base/observer_list.h:168-180 | A registration removed before an iterator reaches it is never delivered by any later call of any iterator. |
| ReentrantIteration.NeverReturns | base/observer_list.h:157-166 | A registration that is gone never comes back; adding the observer again is a new one. |
| ListClient.Client.Perform | base/observer_list.h:129-209 | On the real objects: any call on the list or on one of its iterators returns what the state machine of ReentrantIteration returns and leaves the objects in the state it says. |
| ListClient.Play | base/observer_list.h:129-209 | Any script of calls on a new list object and its iterator objects returns exactly the state machine's answers, and hence those of some run of the registry. |
| ObserverListThreadSafe.ExecSafe | base/observer_list_threadsafe.h:115-164 | Every step of every thread from a good state follows no freed context, frees none twice, and leaves a good state. |
| ObserverListThreadSafe.RunsAreSafe | base/observer_list_threadsafe.h:115-256 | The same for whole runs, over every interleaving of critical sections, tasks and nested callbacks, and whichever free memory the allocator hands out. |
| ObserverListThreadSafe.AliveAndMapped | base/observer_list_threadsafe.h:159-164 | In every reachable state a mapped context is alive and its thread's own; one alive but unmapped, with no call in the middle of it, is being iterated by its thread and holds only nulls. |
| ObserverListThreadSafe.QuiescentAliveIsMapped | base/observer_list_threadsafe.h:210-212 | With no call in progress the live contexts are exactly the mapped ones, each mapped once, none empty and none with nulls. |
| ObserverListThreadSafe.DeliversToRegistered | base/observer_list_threadsafe.h:235-240 | In every reachable state, an observer about to be called is registered on the calling thread at that moment. |
| ObserverListThreadSafe.StaleTasksDoNothing | base/observer_list_threadsafe.h:221-233 | When addresses are not reused, a task notifies only the very context it was posted for, and does nothing for one since removed, even if its thread has another by now. |
| SharedObserverList.SharedList.AddObserver | base/observer_list_threadsafe.h:115-128 | In place: without a message loop nothing happens; otherwise the thread has one mapped context object, made with a fresh list object if need be. |
| NotificationHistory.RegisteredFromHistory | base/observer_list_threadsafe.h:115-164 | In every run an observer counts as registered on a thread exactly when a call of AddObserver for it has completed there later than every call of RemoveObserver. |
| NotificationHistory.DeliveriesAreRegistered | base/observer_list_threadsafe.h:217-240 | In every run nothing faults, and every call of an observer is on a thread where, by the history of calls before it, AddObserver has completed for it and RemoveObserver has not been called for it since. |
| NotificationHistory.RemovedIsSilent | base/observer_list_threadsafe.h:137-164 | In every run, between a call of RemoveObserver on a thread and a later call of that observer there, AddObserver was called for it again. |
| NotificationHistory.AddObserverAdds | base/observer_list_threadsafe.h:115-128 | The whole call, whatever other threads do in the middle of it: on a thread with a message loop the observer is last in the thread's list unless it was there, and without one nothing happens. |
| NotificationHistory.RemoveObserverRemoves | base/observer_list_threadsafe.h:137-164 | The whole call, whatever other threads do in the middle of it: the thread's list loses exactly that observer, order kept. |
| NotificationDelivery.NotifyPostsOneEach | base/observer_list_threadsafe.h:178-193 | Notify adds one task for each context in the map, to the thread that owns it, and changes nothing else. |
| NotificationDelivery.TaskWaits | base/observer_list_threadsafe.h:189-191 | A posted task stays posted through every event but its own run or loss. |
| NotificationDelivery.NotificationArrives | base/observer_list_threadsafe.h:178-256 | An observer registered on a thread at the Notify and not removed until the loop of that thread's task has ended is called by that loop exactly once, whatever any thread does before the task runs and while it runs. |
| NotificationDelivery.UndisturbedNotification | base/observer_list_threadsafe.h:178-256 | A notification nothing disturbs calls exactly the observers of the thread's list, each once and in order. |
| SharedObserverList.SharedList.RemoveObserver | base/observer_list_threadsafe.h:137-156 | In place: the context is unmapped exactly when its list object's only slot holds the observer to be removed, and the call goes on with that context; without a context nothing happens. |
| SharedObserverList.SharedList.Notify | base/observer_list_threadsafe.h:178-193 | In place: each task is posted once more if it is for a mapped context on the thread that owns it, and no other. |
| SharedObserverList.SharedList.BeginIteration | base/observer_list_threadsafe.h:235-236 | In place: a new iterator object on the context's list object, in the thread's own call and in no other. |
| SharedObserverList.SharedList.NextObserver | base/observer_list_threadsafe.h:235-240 | In place: the loop's iterator object is asked for the next observer, and destroyed on the context's list object when there is none. |
| SharedObserverList.SharedList.FinishRemove | base/observer_list_threadsafe.h:159-163 | In place: the context and its list object are destroyed exactly when the list's vector is empty. |
| SharedObserverList.SharedList.Perform | base/observer_list_threadsafe.h:115-256 | In place: whatever event comes next, the contexts, list objects and iterator objects change as the state machine says, no two calls share an iterator, no two contexts a list, and the state stays good. |
| SharedObserverList.Play | base/observer_list_threadsafe.h:115-256 | Any schedule of events played on the real objects makes exactly the calls of observers that the run of the state machine makes, each of an observer registered by the history before it. |
| Md5Transform.F1IsF | base/md5.cc:50-53 | The optimised F1 is RFC 1321's F on every input. |
| Md5Transform.F2IsG | base/md5.cc:54 | F1 with its operands rotated is RFC 1321's G on every input. |
| Md5Transform.RoundOne | base/md5.cc:75-90 | The sixteen steps with rotated register names are the sixteen operations of round 1 in section 3.4 of RFC 1321. |
| Md5Transform.RoundTwo | base/md5.cc:92-107 | The same for round 2. |
| Md5Transform.RoundThree | base/md5.cc:109-124 | The same for round 3. |
| Md5Transform.RoundFour | base/md5.cc:126-141 | The same for round 4. |
| Md5Transform.AllRounds | base/md5.cc:67-147 | For every state and block the 64 unrolled steps compute the table-driven rounds of RFC 1321. |
| Md5.CounterAdds | base/md5.cc:176-181 | The two-word counter with its carry counts eight times the bytes seen, modulo 2^64, whatever length is added. |
| Md5.Md5Context.constructor | base/md5.cc:157-165 | A new context has seen nothing. |
| Md5.Md5Context.ByteReverse | base/md5.cc:39-48 | On a little-endian host the conversion in place changes nothing. |
| Md5.Md5Context.Transform | base/md5.cc:67-147 | In place: the four words become RFC 1321's compression of them with the block in the buffer. |
| Md5.Md5Context.Update | base/md5.cc:171-215 | After any update the counter counts all bytes seen, the words are the digest state of the whole blocks, and the buffer holds exactly the rest. |
| Md5.Md5Context.Pad | base/md5.cc:226-250 | One block or two, the blocks digested and the buffer together are the message with RFC 1321's padding, up to the length field. |
| Md5.Md5Context.Final | base/md5.cc:221-262 | The result is the RFC 1321 digest of everything seen, and the context is wiped. |
| Md5.Md5Context.IntermediateFinal | base/md5.cc:264-270 | The result is the digest of what has been seen so far, and the context is not changed. |
| Md5.Md5Sum | base/md5.cc:286-291 | The digest of the data. |
| Md5.Md5OfPieces | base/md5.cc:167-270 | However a message is cut into updates, the digest is that of the whole, and each intermediate digest that of the prefix. |
| Md5.DigestToBase16 | base/md5.cc:272-284 | The text has two characters a byte, each a lower-case hexadecimal digit, and reads back as the digest. |
| Sha1.MixIsF | base/sha1_portable.cc:66-76 | The four cases of f are FIPS 180-3's Ch, Parity, Maj and Parity, though written with or for exclusive or. |
| Sha1.SIsRotation | base/sha1_portable.cc:78-80 | S is the circular shift of section 3.2 of FIPS 180-3, for the counts used. |
| Sha1.KIsConstant | base/sha1_portable.cc:82-92 | K gives the constants of section 4.2.1 of FIPS 180-3. |
| Sha1.SecureHashAlgorithm.Expansion | base/sha1_portable.cc:166-171 | In place: the first sixteen words are byte-swapped and the union is extended to the 80-word message schedule of the block that was in it. |
| Sha1.SecureHashAlgorithm.Process | base/sha1_portable.cc:157-198 | In place: the state becomes the FIPS 180-3 compression of it with the block in M, and the cursor is zero. |
| Sha1.SecureHashAlgorithm.Update | base/sha1_portable.cc:123-131 | Between calls the cursor is the byte count modulo 64, the length counts bits, M holds exactly the bytes since the last block, and the state is that of the blocks before. |
| Sha1.SecureHashAlgorithm.Pad | base/sha1_portable.cc:133-155 | One block or two, the message is completed with the padding of section 5.1.1 of FIPS 180-3, the length in big-endian order. |
| Sha1.SecureHashAlgorithm.Final | base/sha1_portable.cc:115-121 | The digest bytes are those of FIPS 180-3 for everything seen. |
| Sha1.Sha1HashBytes | base/sha1_portable.cc:207-214 | The FIPS 180-3 digest, for every message under 2^61 bytes. |
| Sha1.Sha1OfPieces | base/sha1_portable.cc:123-131 | However a message is cut into updates, the digest is that of the whole. |
| ArgvQuoting.EscapeRun | base/command_line.cc:115-132 | The nested loops write a run of backslashes doubled exactly before a quote or the end. |
| ArgvQuoting.Quote | base/command_line.cc:98-143 | The loop computes the quoted form of every argument. |
| ArgvQuoting.ReadEscaped | base/command_line.cc:112-140 | What the loop writes between quotes, the splitting rules read back as the argument, whatever follows. |
| ArgvQuoting.SplitUndoesQuoting | base/command_line.cc:98-143 | Quoting each argument and joining with spaces, then splitting, returns the list exactly when no argument is empty and none has a tab without also having a character that asks for quotes. |
| ArgvQuoting.OrdinaryArgumentsSurvive | base/command_line.cc:98-143 | In particular every list of non-empty, tab-free arguments survives, with or without placeholder quoting. |
| ArgvQuoting.PlaceholderHoldsBlanks | base/command_line.cc:103-106 | With placeholder quoting, any text without quotes and backslashes, blanks included, may take the place of any '%' in the quoted argument, and the result is still split as that one argument. |
| ArgvQuoting.PlainPercentMaySplit | base/command_line.cc:103-110 | Without it a '%' is left bare, and a text put in its place comes apart. |
| ArgumentsString.GetArgumentsString | base/command_line.cc:436-465 | The loop writes the arguments with single spaces between, quoting all of an argument but only the value of a switch, up to the terminator. |
| ArgumentsString.ArgumentsComeBackIff | base/command_line.cc:436-465 | Splitting that string gives back the argument list exactly when every switch has a name without blanks and quotes and a value that can be quoted, and every other argument can be quoted, for every list. |
| ArgumentsString.SurvivesIff | base/command_line.cc:448-461 | One argument's part of the string is read back as that argument exactly under that condition. |
| CommandLine.ParseIsPartition | base/command_line.cc:73-94 | Parsing is a stable partition: before the terminator switches and arguments each keep their order, and from it on everything is an argument. |
| CommandLine.CommandLine.InitFromArgv | base/command_line.cc:252-259 | In place: argv is the program, the switches in order, then the arguments in order, and begin_args_ marks the boundary. |
| CommandLine.CommandLine.AppendSwitchesAndArguments | base/command_line.cc:73-94 | In place: new switches follow the old switches, new arguments the old arguments. |
| CommandLine.CommandLine.AppendSwitchNative | base/command_line.cc:315-337 | In place: the text goes in at the boundary, which moves up by one, everything else stays, and both maps learn the value. |
| CommandLine.CommandLine.Combine | base/command_line.cc:330-334 | The text is the name, with "--" before it exactly when it has no prefix of its own, and "=" and the value exactly when there is a value. |
| CommandLine.CommandLine.GetArgs | base/command_line.cc:357-366 | The arguments, without the first terminator among them. |
| CommandLine.CommandLine.HasSwitch | base/command_line.cc:269-273 | True exactly when some switch appended had this key. |
| CommandLine.CommandLine.GetSwitchValueNative | base/command_line.cc:298-304 | The value of the last switch appended with the key, or the empty string when there is none. |
| CommandLine.SwitchMapHoldsLast | base/command_line.cc:322-328 | The switch map holds, for each key ever appended and no other, the value of the last switch with that key. |
| CommandLine.KeyOfName | base/command_line.cc:322-324 | The key is the same whether the caller gives the name bare or with either prefix. |
| CommandLine.ReadsBackIff | base/command_line.cc:56-70 | For every switch appended, prefixed or not: its text in argv is read as a switch with its key and value exactly when the name has no "=", the text does not end in white space, and there is more to it than a prefix. |
| CommandLine.CommandLineTravelsIff | base/command_line.cc:252-337 | For every program, switches and arguments: initialising from the resulting argv gives the same argv, switch map and boundary exactly when every switch reads back so, and program and arguments are trimmed and hold no switch before the terminator. |
| CommandLine.OrdinarySwitchTravels | base/command_line.cc:315-337 | In particular a switch whose name is more than a prefix, free of "=" and white space, with a trimmed value, reads back. |
| CommandLine.PassOn | base/command_line.cc:252-337 | On the objects: switches are appended, and a second command line initialised from the argv finds every key, with the last value given for it, no other, and the same arguments. |
| CommandLine.NormalFormIsStable | base/command_line.cc:252-259 | Initialising again from the resulting argv gives the same argv, map and boundary, unless some switch was written with "=" and nothing after it and its name ends in white space or is only a prefix, and then it does not. |
| CommandLine.OrdinarySwitchesAreStable | base/command_line.cc:252-259 | In particular when switch names are non-empty and free of white space. |
| CommandLine.EmptySwitchIsNotStable | base/command_line.cc:56-70 | "--=" is met as a switch, put back as "--", and taken for the terminator the next time. |
| PickleWire.DecodeEncode | base/pickle.cc:24-34 | A number written in a given width reads back as itself. |
| PickleWire.AlignInt | base/pickle.h:274-277 | The least multiple of the alignment that is not smaller. |
| PickleWire.Advance | base/pickle.cc:36-44 | The read index moves past the aligned size or to the end, never beyond it. |
| PickleWire.Take | base/pickle.cc:56-65 | A read is a slice inside the payload or nothing, and leaves the index within the payload. |
| PickleWire.Read | base/pickle.cc:78-204 | On any bytes each typed read keeps the index within the payload. |
| PickleWire.RoundTrip | base/pickle.cc:24-204 | For every sequence of writable values the matching reads return the same values and end exactly at the end. |
| PickleWire.FailedReadsStick | base/pickle.cc:67-76 | A failed read leaves the iterator at the end exactly when it is not a 16-bit string whose length overflows with bytes behind it. |
| PickleWire.OverflowDoesNotStick | base/pickle.cc:67-76 | Eight bytes on which a failed read is followed by a successful one. |
| PickleWire.HeaderDeduction | base/pickle.cc:228-245 | Arbitrary bytes are accepted exactly when they are a positive multiple-of-four header followed by the payload they announce. |
| PickleWire.ImageRecovered | base/pickle.cc:228-245 | From the bytes of a pickle the same header size and payload are recovered. |
| PickleWire.FindNextIsExact | base/pickle.cc:334-348 | The end of a pickle is found whatever follows it, and never on a strict prefix of it. |
| PickleWire.CutSeparates | base/pickle.cc:334-348 | Any concatenation of pickles with equal headers and part of one more is cut into exactly those pickles and that part. |
| PickleWire.WriteAppendsAtEnd | base/pickle.cc:358-378 | What WriteBytesCommon leaves is the payload with the field appended exactly when the write offset is the payload's size. |
| Pickle.Pickle.constructor | base/pickle.cc:217-226 | A fresh pickle is empty, with an aligned header and a capacity that is a multiple of 64. |
| Pickle.Pickle.Wrap | base/pickle.cc:228-245 | In place: the header size is deduced from the bytes or zero if they cannot be a pickle, and payload and image are the bytes themselves. |
| Pickle.Pickle.Resize | base/pickle.cc:319-325 | In place: the capacity is rounded up to a multiple of 64 and what fits of the contents moves along. |
| Pickle.Pickle.WriteBytesCommon | base/pickle.cc:358-378 | In place: what lies before the write offset stays, the bytes and zeros up to a multiple of four follow, and anything beyond is lost; afterwards offset and stored size agree, are a multiple of four and within the capacity; other header bytes stay. |
| Pickle.Pickle.Write | base/pickle.cc:283-305 | In place: each typed write puts the wire form of its value at the write offset. |
| Pickle.Pickle.Reserve | base/pickle.cc:307-317 | In place: room for the length and the same contents. |
| Pickle.Pickle.Assign | base/pickle.cc:262-281 | In place, whether either pickle is read-only or not, and for self-assignment: header size, write offset and every byte of the image become those of the other pickle. |
| Pickle.Pickle.Copy | base/pickle.cc:247-255 | The copy of a pickle, a read-only one included, is writable and has the other's header size, write offset and image. |
| Pickle.Pickle.ImageIsImage | base/pickle.h:155-158 | The bytes a pickle exposes are a header that begins with the payload's size, and the payload. |
| Pickle.WriteValues | base/pickle.h:173-218 | Any sequence of values under 2^32 bytes in all, written to a fresh pickle, leaves their concatenated wire forms as payload. |
| Pickle.WriteToCopy | base/pickle.cc:228-255 | Writing to the copy of a pickle that wraps bytes leaves the written field alone as payload, whatever was wrapped. |
| Pickle.WriteThenRead | base/pickle.cc:18-204 | Values written to a fresh pickle object and read back by an iterator object in the same order come back equal, and the iterator ends at the end. |
| Pickle.ReadItems | base/pickle.cc:78-204 | Any sequence of typed reads by an iterator object on any bytes returns what the reads of the wire format return, and ends where they end. |
| Pickle.SendAndRead | base/pickle.cc:228-245 | Values written to a fresh pickle, its bytes wrapped by a receiver and read back in the same order, come back equal. |
| Pickle.PickleIterator.GetReadPointerAndAdvance | base/pickle.cc:56-65 | In place: what Take says, index included. |
| Pickle.PickleIterator.GetUnitsPointerAndAdvance | base/pickle.cc:67-76 | In place: the multiplied length is checked for int overflow before anything moves. |
| Pickle.PickleIterator.ReadItem | base/pickle.cc:78-204 | In place: each of the typed reads does what Read says, failures included. |
| PathService.GetAgrees | base/path_service.cc:182-231 | The cached service returns whenever the cache-free one does, what it returns is what the cache-free one answers, and the cache stays coherent, for providers that read any keys. |
| PathService.RegisterKeepsCoherence | base/path_service.cc:302-332 | Registering a provider keeps the cache right when no cached answer had asked, without an override, for a key of the new range; the built-in providers may answer keys outside their own ranges. |
| PathService.RunIsTransparent | base/path_service.cc:182-341 | Over every orderly sequence of calls, the built-in provider chain included, the cached and the cache-free service give the same responses. |
| PathService.StaleAfterRegister | base/path_service.cc:302-332 | For any two keys and any provider that covers and answers the second only: a run in which registering it changes the cache-free answer for the first and leaves the cached one. |
| PathService.PathData.Get | base/path_service.cc:182-231 | In place: cache, override, providers in order, ".." made absolute, failures not cached. |
| PathService.PathData.OverrideAndCreateIfNeeded | base/path_service.cc:242-280 | In place: it succeeds exactly when the directory is there if asked for and the path can be made absolute; then this key's override is the path, the other keys' overrides stay and the cache is emptied; on failure nothing changes. |
| PathService.PathData.RemoveOverride | base/path_service.cc:283-299 | In place: this key's override goes, the others stay, and the cache is emptied; without one nothing changes. |
| PathService.PathData.RegisterProvider | base/path_service.cc:302-332 | In place: the provider is first in the list, and the cache stays. |
| PathService.PathData.DisableCache | base/path_service.cc:334-341 | In place: the cache is emptied and not used again. |
| PathService.Serve | base/path_service.cc:182-341 | A whole orderly run on the service in place answers as the service without a cache. |
| PathMeaning.InForceStep | base/path_service.cc:242-299 | The override of a key is the path of the last request that successfully overrode that key, later than every removal of it, whatever was done to other keys. |
| PathMeaning.AnswersIs | base/path_service.cc:182-231 | A lookup answers the override in force, and otherwise what the first provider that does not decline gave, the last registered asked first, made absolute if it goes through "..", and none if all decline or nothing is left of the path. |
| PathMeaning.OneAnswer | base/path_service.cc:182-231 | There is one such answer, at whatever depth it is found. |
| PathMeaning.RunMeans | base/path_service.cc:182-341 | Every response of every run is the one that the requests before it call for: lookups, overrides and removals. |
| PathMeaning.ServeMeaningfully | base/path_service.cc:182-341 | The same of the responses of the service in place, cache included, in an orderly run. |
| PathMeaning.FoundOnce | base/path_service.cc:160-178 | A path once found for a key is answered from the cache, no provider asked, until an override is made or removed or the cache is disabled. |
| IdMap.SizeCountsUnmarked | base/id_map.h:141-144 | Table size less pending ids is the number of unmarked entries. |
| IdMap.StepKeepsSound | base/id_map.h:61-126 | Every operation, adding while an iterator lives included, keeps ids unique, pending ids a subset of the keys, and none pending when no iterator lives. |
| IdMap.RunConserves | base/id_map.h:82-126 | A map that owns its pointers deletes each one it was given exactly once, unless it still holds it or Replace gave it back, over every run. |
| IdMap.DeferredWhileLive | base/id_map.h:82-97 | While the iteration depth stays above zero and nothing is added, entries stay where they are, nothing is deleted, and exactly the ids asked to be removed are pending. |
| IdMap.OutermostIterationEnds | base/id_map.h:250-257 | When the depth falls from one to zero after such a run, exactly the entries never asked to be removed are left, in order, and each removed one's pointer is deleted once. |
| IdMap.ClearEmptiesIff | base/id_map.h:117-126 | Outside iteration Clear empties the map exactly when it owns its pointers or was empty; inside, the end of the iteration empties it. |
| IdMap.VisitsAreExact | base/id_map.h:202-219 | An iterator only moves forward, never comes to rest on an entry that is marked at that turn, and passes over an entry only if it is marked by then. |
| IdMap.EveryEntryVisitedOnce | base/id_map.h:202-219 | A complete iteration visits every entry never marked exactly once, none twice, and one marked before it began never. |
| IdMap.IDMap.Remove | base/id_map.h:82-97 | In place: erased and deleted at depth zero, marked otherwise, nothing for an unknown id. |
| IdMap.IDMap.Replace | base/id_map.h:103-115 | In place: the old pointer comes back undeleted; an unknown id changes nothing. |
| IdMap.IDMap.Clear | base/id_map.h:117-126 | In place: the loop marks every key, or release_all runs. |
| IdMap.IDMap.Size | base/id_map.h:141-144 | The number of unmarked entries. |
| IdMap.IDMap.Lookup | base/id_map.h:133-139 | Finds every entry of the table, marked ones included. |
| IdMap.IDMap.Compact | base/id_map.h:250-257 | In place: each pending id is removed in ascending order, and none is left pending. |
| IdMap.Iterator.Advance | base/id_map.h:202-219 | In place: one step on, then past marked entries. |
| IdMap.Iterator.Destroy | base/id_map.h:176-185 | In place: the depth goes down, and at zero the map is compacted. |
| IdMapIterators.DepthCountsLive | base/id_map.h:150-185 | In every run the iteration depth is the number of iterators begun or copied and not yet destroyed, by the history of events, and each of them points into the table or at its end. |
| IdMapIterators.NothingGoesWhileLive | base/id_map.h:82-126 | As long as some iterator lives no entry leaves the table and no pointer is deleted, additions included, and the ids pending are those that were and those asked to be removed meanwhile. |
| IdMapIterators.LastIteratorEnds | base/id_map.h:176-185 | The end of the only live iterator takes exactly the entries whose ids are pending, and deletes each one's pointer once if the map owns them. |
| IdMapIterators.RefinesPlainMap | base/id_map.h:61-126 | Whatever iterators live, each operation does to the unmarked entries what it does to a plain map from ids to pointers, and the beginning and end of an iteration do nothing. |
| IdMapIterators.Client.Perform | base/id_map.h:61-229 | In place: any event, on the map object or one of any number of iterator objects, leaves the objects in the state the history calls for. |
| IdMapIterators.Play | base/id_map.h:61-257 | Any script of such events on new objects ends with the table, depth and deletions of the run, and the depth is the size of the set of live iterators. |
| LazyInstance.MaskTest | base/lazy_instance.h:147-160 | The created-mask test tells an address from 0 and from the lock's value. |
| LazyInstance.StepKeepsSafe | base/lazy_instance.cc:17-52 | Every atomic step of every thread keeps one creator at most, a word that says what the space holds, and one destructor call scheduled at most. |
| LazyInstance.CreatedOnce | base/lazy_instance.h:141-169 | In every interleaving one thread at most is creating, New runs at most once between resets, and every returned pointer is that one constructed instance. |
| LazyInstance.Lazy.CompareAndSwap | base/lazy_instance.cc:23-26 | In place: the old value comes back, and the word changes only if it was the expected one. |
| LazyInstance.Lazy.Continue | base/lazy_instance.cc:17-52 | In place: a thread's next access does what the state machine says. |
| LazyInstance.Lazy.OnExit | base/lazy_instance.h:198-203 | In place: the instance is destroyed and the word is zero again. |
| LazyInstance.ExitDestroys | base/lazy_instance.h:198-203 | In every run, once no thread is inside: OnExit destroys the instance there is, clears the word and leaves nothing scheduled, so that the next call constructs and returns a new one; without an instance, or when it leaks, nothing happens. |
| LazyInstance.NobodyIsStuck | base/lazy_instance.cc:17-43 | In every run, a call under way returns a good pointer once the creating thread, if there is one, has taken at most five more steps and the caller six. |
| LazyInstance.Play | base/lazy_instance.h:141-203 | Any schedule of calls, steps and exits returns only good pointers. |
| Environment.ParseEnvLine | base/environment.cc:105-117 | The two loops find the part before the first equals sign and the length with the terminator. |
| Environment.AlterEnvironment | base/environment.cc:184-232 | The block decodes to the lines no change is about, in order, then each non-empty change as key=value in map order; every pointer starts a NUL-terminated slice, the array ends with null, and pointers and storage fit the allocation with less than a word to spare. |
| Environment.ChangesTakeEffect | base/environment.h:56-60 | Afterwards a variable has the value a change gives it, none if the change is empty, and otherwise what it had. |
| Environment.AlteringTwice | base/environment.cc:184-212 | Applying the same changes again changes nothing exactly when, for every key set, the part before its first equals sign is a key changed. |
| Environment.PlainChangesAreIdempotent | base/environment.cc:184-212 | In particular when no key contains an equals sign. |
| Environment.EqualsInKeyAccumulates | base/environment.cc:184-212 | A change on which a second application adds a second line. |
| RandUtil.RandGenerator | base/rand_util.cc:48-63 | The loop returns the residue of the first draw not above the bound. |
| RandUtil.AcceptanceIsUniform | base/rand_util.cc:50-61 | For every range from 1 to 2^64-1 each residue has exactly floor(MAX/range) accepted draws, and at least half of all draws are accepted, exactly half only for 2^63. |
| RandUtil.ResultsAreEquallyLikely | base/rand_util.cc:56-62 | Moving the accepted draw within its period maps the draw sequences with one result one to one onto those with another, with as many rejections. |
| RandUtil.RandIntIsOneToOne | base/rand_util.cc:19-27 | The generator's outputs go one to one onto [min, max], with the 64-bit and 32-bit wrap the code relies on. |
| RandUtil.SumFitsIff | base/rand_util.cc:22-23 | The final sum leaves 32 bits, and wraps back, exactly when the generated number does not fit an int. |
| RandUtil.RandInt | base/rand_util.cc:19-27 | The result lies in [min, max] and is min plus the generator's result. |
| PendingTask.LessIsLater | base/pending_task.cc:36-50 | Within half the 32-bit circle the comparison is by time, then by posting, across roll-over. |
| PendingTask.TieIsRightIff | base/pending_task.cc:47-49 | On a tie both comparisons are right exactly when the later number is ahead by less than 2^31 modulo 2^32. |
| PendingTask.WrapMisorders | base/pending_task.cc:47-49 | Two tasks 2^31 apart of which neither is less, and three that are each less than the next. |
| PendingTask.StrictTotalOrder | base/pending_task.cc:36-50 | On a queue with a small span the comparison is irreflexive, transitive and total. |
| PendingTask.PopsEarliestFirst | base/pending_task.h:55-56 | Such a queue can be popped empty, and every way of doing so yields every task once, earliest first and in the order of posting on ties. |

## Left out

- Freed memory is modelled by absence from a map and an address by a number; contents of client objects, and what a callback does besides calling back into these classes, are not looked at.
- `ReentrantIteration`, `ObserverListThreadSafe` and `LazyInstance` state their results about functions on states, because nested callbacks and interleavings are not the body of any one method; the classes beside them carry out the same steps in place.
- StaleTasksDoNothing: assumes that an address is not reused, because with reuse the comparison of pointers in `NotifyWrapper` does take a new context for the old one; RunsAreSafe and DeliversToRegistered hold with reuse.
- An observer list whose owner destroys it during iteration: the weak pointer is a flag that iterators test; `FOR_EACH_OBSERVER` and `check_empty` are not modelled.
- The destructor of `ObserverListThreadSafe` and reference counting of the tasks that keep it alive.
- Liveness: that a thread is ever scheduled, that a rejection loop ends or that a posted task is ever run is not stated (NobodyIsStuck, TaskWaits and NotificationArrives say what follows when they are); memory ordering weaker than sequential consistency is not modelled.
- `LazyInstance`: a constructor that asks for its own instance on the same thread, which would spin for ever; `OnExit` while other threads are inside.
- MD5 and SHA-1: big-endian hosts; the SHA-1 length limit of 2^61 bytes is FIPS 180-3's own.
- ArgvQuoting: the rule of some splitters that two quotes in a row inside a quoted part stand for one is not part of the rules the source cites, and quoting never writes such a pair.
- `set_slash_is_not_a_switch`, `PrependWrapper`, `AppendArguments`, `CopySwitchesFrom` and the ASCII conversions of `CommandLine`; Unicode white space.
- Pickle.Copy and Pickle.Assign: copying from a pickle whose bytes were rejected, whose null header the source follows.
- Pickle floats and doubles travel as their bit patterns; a `long` is 64 bits.
- WriteBytesCommon: allocation failure, and sizes at which `size_t` itself would wrap, are not modelled.
- RegisterKeepsCoherence: one direction only, because whether a stale answer differs depends on what a provider does with the key it asked for; StaleAfterRegister shows that the condition is needed.
- PathService: calls interleaved inside the unlocked part of `Get`; a provider that changes the path and then returns false, which the source forbids by `DCHECK`; a change of the current directory between calls.
- PathService.Get: evaluation has a depth, since providers may ask for each other's keys for ever; the statements hold at every depth at which the call returns.
- IdMap: which entries an iterator visits is stated while nothing is added, because a hash table may move its entries when it grows; StepKeepsSound, RunConserves and the results of `IdMapIterators` allow adding. Iterator assignment, thread checks, and destructors of elements that use the map; the order of the hash table is arbitrary.
- Environment: the Windows block, and setting or getting real variables; lines and changes hold no NUL, as C strings cannot.
- RandUtil: `BitsToOpenEndedUnitInterval` and `RandBytesAsString`; the draws are an arbitrary sequence.
- PendingTask: the heap inside `std::priority_queue` (a pop takes a greatest element), and the message loop that owns the queue, which is not part of this model.
- `callback_list.h`, `at_exit.cc`, `bits.h`, `big_endian.h`, `guid_posix.cc`, `barrier_closure.cc`: sound and simple next to the parts above, and would add only easy members.
