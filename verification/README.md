# Verified models of UNIX systems code

This project models programs and library functions from two collections of systems code,
APUE (`apue.3e`) and UNP (`unpv13e`), and proves what they are for.  Code that several
processes or threads run at once is a state machine with one step for each lock call,
system call or access to shared memory; an invariant holds in every state of every run.
Code that works on buffers, lists and files in place is methods over arrays and classes,
each proved against a function or a map.

| component | modules | main results |
|---|---|---|
| hash-file database, one process | `DbFormat`, `DbImage`, `DbContents`, `Db`, `DbNeighbours`, `DbSession` | the bytes of the two files refine a map from keys to data, also when a store stops the process; records read back as written |
| hash-file database, many processes | `DbSteps`, `DbInvariant`, `DbLists`, `DbFrame`, `DbQuiet`, `DbWrites`, `DbWriteSteps`, `DbLinkSteps`, `DbSafety`, `DbRuns`, `DbLinear`, `DbSerial`, `DbReuse` | one place for each record, changes only under the lock, every run answered as one process is, pointers that end, no deadlock |
| reference-counted table | `Mutex3`, `Mutex2`, `Mutex2Inv`, `Mutex2Frame`, `Mutex2Steps`, `Mutex2Writes`, `Mutex2Refines`, `MutexLaws` | the two-lock version refines the one-lock version; what each call means; no access after free; no deadlock |
| semaphores with undo | `Semaph`, `SemaphInv`, `SemaphRuns` | the value as a sum of the calls, the process counter, removal, single initialisation, and the exact bound on users |
| address text | `InetText`, `InetParse`, `InetGrammar`, `InetPrint`, `Inet` | printing and parsing are inverse; the texts that are accepted and printed; the leftmost longest zero run; the exact condition for the shift loop |
| asynchronous filter | `Rot13` | the output is the translated input for any completion order; every run ends |
| `getaddrinfo` list | `Gai`, `GaiList` | a list that grows while it is walked becomes groups of one entry for each type |
| merge, copier, print queue, checksum, line reader, round trip times | `Barrier`, `StrCli`, `Printd`, `Cksum`, `Readline`, `Rtt` | sorted permutation; conservation of bytes; order of jobs; RFC 1071; lines of a stream; bounds of the estimators |

`Basics` holds the types that several components share.  `dafny verify dfyconfig.toml`
checks everything.

How the environment is modelled:

- Files are strings of bytes; a read or write of the library is one step.  Processes on one
  database each have their own handle.
- Locks are derived from where the processes and threads are: a lock is held between the
  step that takes it and the step that drops it, and a step that would take a lock held by
  another is not enabled.
- `malloc` may fail in the table of `mutex2.c`, and returns any address that is not in use.
  The list of `ga_port.c` gets the number of allocations that will succeed.
- A process of the semaphore protocol may exit at any step; the kernel then adds its undo
  values, within the range of a semaphore.  Identifiers of sets are not used again.  A call
  that ends in `err_sys` is such an exit; this covers a create that is blocked when the set is
  removed.
- Reads, writes and completions give any result that the call allows: short counts,
  refusals, interruptions, errors.

Where code and comments differ, the models follow the code:

- `inet_pton.c` says that a double colon in a full address is ignored.  The shift loop zeroes
  every group after it (`InetParse.FullAddress`, `InetParse.FullAddressIff`).
- `inet_ntop.c` compares an IPv4 text with `size` without its null byte.  One byte more than
  `size` is stored exactly if the text is `size` bytes long (`Inet.OverrunIff`).  The IPv6
  function counts the null byte.
- `semaph.c` says that a semaphore that exists is not initialised.  With BIGCOUNT users it is,
  and only then (`SemaphInv.ReinitIff`, `SemaphInv.TooManyUsers`).
- `in_cksum.c` adds in 32 bits.  The value is the checksum exactly if the sum fits
  (`Cksum.InCksum`), which it need not for more than 65537 words (`Cksum.TooMany`).
- `inet_pton.c` accepts a single colon after the last group (`InetGrammar.Parse6Iff`).
- A replacement by data of another length in `db.c` deletes the old entry before it can be
  stopped for want of room, and the entry is lost (`Db.Handle.Store`).
- `readline.c` returns one more than the bytes stored when the buffer fills.
- `rot13c2.c` accepts a short read of the last block; the output then ends where that read
  ended (`Rot13.ExitIsRot13`).  A file that does not change gives no such read
  (`Rot13.WholeOutput`).
- `semaph.c` undoes the operations of a process on [0] when it exits even after it has closed
  the semaphore.
- `strclinonb.c` may return with bytes from the socket that have not been written.

## Model

| member | source | states |
|---|---|---|
| `DbFormat.AtolPad` | apue.3e/db/db.c:582-583 | a number printed with `%*d` in a field wide enough is read back by `atol` |
| `DbFormat.ParseFields` | apue.3e/db/db.c:396-417 | the two separators cut key, data offset and data length apart; a third separator, a bad offset or a bad length is corruption |
| `DbFormat.ReadBack` | apue.3e/db/db.c:343-418 | `_db_readidx` of bytes that `_db_writeidx` wrote gives the same chain pointer, key, offset and length, whatever surrounds them in the file |
| `DbFormat.EncodeSize` | apue.3e/db/db.c:567-612 | a record takes the two fixed fields and its body, and its size depends on the lengths of key and numbers only |
| `DbFormat.HashIs` | apue.3e/db/db.c:306-316 | the hash is the sum of the signed characters times their index from 1, modulo 2^64, modulo the table size |
| `DbFormat.SignedCharIs` | apue.3e/db/db.c:309-314 | a character counts as its eight bits, from -128 to 127 |
| `DbImage.WriteRec` | apue.3e/db/db.c:567-612 | rewriting a record with one of the same size leaves every other record and every head of the index file as it was |
| `DbImage.WritePtrField` | apue.3e/db/db.c:618-631 | `_db_writeptr` at a record changes the chain pointer of that record and nothing else |
| `DbImage.WriteHead` | apue.3e/db/db.c:618-631 | `_db_writeptr` at a head changes that head and nothing else |
| `DbImage.AppendRec` | apue.3e/db/db.c:567-612 | a record appended at the end of the index file joins the records already there |
| `DbImage.RemoveLinked` | apue.3e/db/db.c:516-522 | taking a record out of its chain keeps every list acyclic and every other record on its list |
| `DbImage.PushLinked` | apue.3e/db/db.c:690-697 | putting a record first on a chain keeps every list acyclic and every other record on its list |
| `DbContents.RepresentsDeleted` | apue.3e/db/db.c:463-525 | after a delete the chains stand for the map without the key |
| `DbContents.RepresentsReused` | apue.3e/db/db.c:690-697 | a record taken from the free list and rewritten adds its key to the map |
| `DbContents.RepresentsAppended` | apue.3e/db/db.c:676-687 | records appended to both files add their key to the map |
| `DbContents.RepresentsOverwritten` | apue.3e/db/db.c:733-736 | rewriting data in place changes the value of one key only; extents stay disjoint |
| `Db.Files.constructor` | apue.3e/db/db.c:133-162 | a new database is a sound pair of files that stands for the empty map |
| `Db.Handle.HashOf` | apue.3e/db/db.c:306-316 | the loop computes the weighted sum of the signed characters modulo 2^64, modulo the table size |
| `Db.Handle.ReadIdx` | apue.3e/db/db.c:343-418 | reading at the offset of a record sets the fields of the handle to that record and returns its chain pointer |
| `Db.Handle.Locate` | apue.3e/db/db.c:259-301 | the walk ends and finds the record exactly if the key is in the map; `ptroff` is the place of the pointer to it |
| `Db.Handle.Fetch` | apue.3e/db/db.c:233-253 | gives the value of the key in the map, or nothing exactly if the key is absent |
| `Db.Handle.WriteDat` | apue.3e/db/db.c:531-560 | the new data file, and the offset and length of the data in it |
| `Db.Handle.WriteIdx` | apue.3e/db/db.c:567-612 | succeeds exactly if pointer and record length are in range; then the index file holds the encoded record at the offset, else it is unchanged |
| `Db.Handle.WritePtr` | apue.3e/db/db.c:618-631 | succeeds exactly if the pointer is in range; then the index file holds it at the offset, else it is unchanged |
| `Db.Handle.DoDelete` | apue.3e/db/db.c:463-525 | files stay sound, the map loses exactly the key, neither file changes its length |
| `Db.Handle.Delete` | apue.3e/db/db.c:440-456 | found exactly if the key was in the map; the map loses the key and nothing else; neither file changes its length |
| `Db.Handle.ScanFree` | apue.3e/db/db.c:764-779 | finds the first free record with these key and data lengths, none before it fits, and fails exactly if there is none |
| `Db.Handle.FindFree` | apue.3e/db/db.c:752-805 | found exactly if some free record fits; it is then off the free list and on no list, everything else as before |
| `Db.Handle.StoreAppend` | apue.3e/db/db.c:676-687 | succeeds exactly if the record fits and the end of the index file can be addressed; both files grow by one record; else the map, the lists and the index file up to its old end are as before |
| `Db.Handle.StoreNew` | apue.3e/db/db.c:661-699 | a key that is absent is added by reuse or by append; it fails exactly if neither has room, and then leaves what the append path leaves |
| `Db.Handle.StoreMove` | apue.3e/db/db.c:712-731 | replacing by data of another length: delete, then append; succeeds exactly if the append has room and the map has the new value; else the map has lost the key |
| `Db.Handle.StoreOver` | apue.3e/db/db.c:732-738 | replacing by data of the same length rewrites the data record and the map has the new value |
| `Db.Handle.Store` | apue.3e/db/db.c:637-746 | the return value by flag, presence and room; the map gains exactly the new value on 0, and nothing changes on 1 and -1; the files grow by one record in each exactly if no data of the same length is overwritten and no free record is reused; when the process is stopped for want of room the map has lost the key, and files no longer than a pointer can address are still sound |
| `Db.StoppedUpto` | apue.3e/db/db.c:676-687 | what a stopped append leaves: the index file up to its old end and the data file stand for the same map, and if only the record was out of range the files are sound as a whole |
| `Db.Handle.NextRec` | apue.3e/db/db.c:835-875 | the next record of the file with a key that is not blank; only blank keys are skipped; nothing exactly at the end |
| `Db.Handle.ReadAll` | apue.3e/db/db.c:812-875 | rewind and repeated calls give every pair of the map whose key is not blank, each once |
| `DbNeighbours.DeleteNeighbours` | apue.3e/db/db.c:463-525 | a delete keeps both files' lengths, rewrites its record with a blank key of the same length and the same extent, blanks its data, and every other record reads back the same but for its pointer, with the same data |
| `DbNeighbours.ReuseNeighbours` | apue.3e/db/db.c:689-699 | a reuse writes its record and data over one of the same lengths, and every other record reads back the same but for its pointer, with the same data |
| `DbSession.Serve` | apue.3e/db/db.c:233-746 | one request is answered as the map answers it and changes the map so; it stops the process exactly if it is a store without room |
| `DbSession.Serving` | apue.3e/db/db.c:233-746 | any sequence of fetch, store and delete is answered as a map answers it; it stops early only at a store that has no room in the files as the requests before it left them; it does not stop if keys and data are small enough for their records and both files stay addressable |
| `DbSession.NotStopped` | apue.3e/db/db.c:574-580 | under that condition on keys, data and file lengths no store of the sequence is stopped |
| `DbSession.LastChange` | apue.3e/db/db.c:637-746 | a fetch finds what the last request that changed the key left there |
| `DbSafety.RunSafe` | apue.3e/db/db.c:259-805 | the invariant holds in every state of every interleaving of any number of processes |
| `DbSafety.RunPlaces` | apue.3e/db/db.c:463-805 | in every reachable state a record is on exactly one list, once, or in the hands of exactly one process with a chain write lock; index records and data extents are disjoint |
| `DbSafety.EachRecordOnce` | apue.3e/db/db.c:463-525 | under the invariant each record has one place |
| `DbSafety.OnlyUnderLock` | apue.3e/db/db.c:273-283 | a step that changes a chain, its pointer in the header, a record of it or the data of one is a step of a process with that chain's write lock, or the free-list lock for the free list; empty chains included |
| `DbRuns.RunUnderLock` | apue.3e/db/db.c:273-283 | at every time of every run a step that changes any list, its pointer in the header, a record of it or its data is one of a process with the chain's write lock, or the free-list lock for the free list |
| `DbRuns.RunAcyclic` | apue.3e/db/db.c:285-296 | in every reachable state the pointers in the index file from every chain and from the free list come to an end over distinct records, also while a delete is between its writes |
| `DbRuns.RunDetaches` | apue.3e/db/db.c:504-522 | in every reachable state the pointer that a delete has yet to rewrite leads to its record, and so does the head of the free list once that is rewritten |
| `DbRuns.UnlinkingOnDisk` | apue.3e/db/db.c:504-522 | between the writes of a delete the pointers lead from its chain through the record to the rest of the chain, and once the record points there, to the free list |
| `DbSafety.ChainWaitsIff` | apue.3e/db/db.c:273-283 | a fetch waits for its chain exactly while a store or delete has it, a store or delete exactly while any call has it |
| `DbSafety.NoDeadlock` | apue.3e/db/db.c:273-283 | in every state, while some process is inside a call some process inside a call can step |
| `DbSafety.ChainIsUnique` | apue.3e/db/db.c:285-296 | the pointers and records in the files determine the map of a chain |
| `DbSafety.AtomicOperation` | apue.3e/db/db.c:259-746 | in every run a call acts on its chain in one step: its result and the entries it leaves are those that its arguments give on the map it found when it got the lock |
| `DbLinear.Linearizable` | apue.3e/db/db.c:259-746 | one order of all calls: every run has a table for each state, at first empty, which changes only when a call unlocks; the result of the call and the new table are those that its arguments give, for each operation and flag; the files hold the table in every chain that no process is writing |
| `DbLinear.UnlockResult` | apue.3e/db/db.c:249-251 | a call that unlocks has the result that its arguments give on the table of all entries, not only those of its chain |
| `DbSerial.CallMeans` | apue.3e/db/db.c:637-746 | in every run, of a call that ends: replace gives -1 exactly if the key is absent, insert 1 exactly if it is present, delete -1 exactly if it is absent, fetch the value or nothing; and the table after it |
| `DbSerial.Sequential` | apue.3e/db/db.c:233-746 | the calls of any run, in the order in which they unlock, are answered as one process is that makes them one after the other, and leave in the files what those leave |
| `DbReuse.FirstSuited` | apue.3e/db/db.c:764-790 | in every reachable state a store that takes a free record takes the first with its lengths, and one that gives up has none on the free list |
| `DbQuiet.StepWalk` | apue.3e/db/db.c:285-296 | a step of the chain walk keeps the invariant while other processes run |
| `DbLinkSteps.StepDelIdx` | apue.3e/db/db.c:504-509 | writing the blanked record with the free-list pointer keeps the invariant |
| `DbLinkSteps.StepDelChain` | apue.3e/db/db.c:516-522 | unlinking the record from its chain keeps the invariant |
| `DbLinkSteps.StepSTake` | apue.3e/db/db.c:781-790 | taking a record off the free list keeps the invariant |
| `DbLinkSteps.StepSLink` | apue.3e/db/db.c:683-697 | linking the new record first on its chain keeps the invariant |
| `DbLinkSteps.StepAIdx` | apue.3e/db/db.c:585-612 | appending an index record under the append lock keeps the invariant |
| `DbWriteSteps.StepStOver` | apue.3e/db/db.c:733-736 | overwriting data in place keeps the invariant |
| `Mutex2Steps.StepFWalk` | apue.3e/threads/mutex2.c:58-63 | a step of the walk of `foo_find` keeps the invariant while other threads run |
| `Mutex2Steps.StepRSearch` | apue.3e/threads/mutex2.c:92-93 | a step of the search for the predecessor keeps the invariant and stays before the object |
| `Mutex2Writes.StepCount` | apue.3e/threads/mutex2.c:45-104 | every change of a count keeps it equal to the references |
| `Mutex2Writes.StepASetHead` | apue.3e/threads/mutex2.c:33-36 | linking a new object keeps the invariant |
| `Mutex2Writes.StepUnlinkMid` | apue.3e/threads/mutex2.c:91-95 | unlinking behind the predecessor takes the object out of its list and no other |
| `Mutex2Writes.StepRFree` | apue.3e/threads/mutex2.c:96-99 | freeing keeps the invariant: nothing refers to the object |
| `Mutex2Refines.StepRefines` | apue.3e/threads/mutex2.c:19-104 | every step of the two-lock table is a call, return or action of the same thread of the one-lock table, or invisible |
| `Mutex2Refines.RunRefines` | apue.3e/threads/mutex3.c:18-90 | every run of mutex2 is a run of mutex3 in which callers have the same references and calls the same state and result at all times |
| `MutexLaws.RunMeans` | apue.3e/threads/mutex2.c:19-104 | in every run of mutex2 each call acts at one moment and does what its argument says: a find gives nothing exactly if no object in the table has the id, else the newest one; the last release takes the object out of the table |
| `MutexLaws.FindFinds` | apue.3e/threads/mutex3.c:51-65 | `foo_find` returns nothing exactly if no object has the id, else the newest that has it with one reference more |
| `Mutex2Refines.FirstAt` | apue.3e/threads/mutex2.c:58-63 | what the walk reaches is the first object with the id |
| `Mutex2Refines.HeldIsCounted` | apue.3e/threads/mutex2.c:45-104 | in every reachable state an object to which a caller has a reference is allocated, on the list of its id, and its count is the number of references |
| `Mutex2Refines.LinkedIsCounted` | apue.3e/threads/mutex2.c:45-104 | in every reachable state the count of every object that the pointers of a list lead to is the number of references of callers and calls, and the object has the hash of the list |
| `Mutex2Refines.ListsEnd` | apue.3e/threads/mutex2.c:58-63 | in every reachable state the pointers of every list come to an end over different objects |
| `Mutex2Refines.AccessesLive` | apue.3e/threads/mutex2.c:45-104 | in every reachable state an object about to be read, written, locked or unlocked is allocated |
| `Mutex2Refines.FreedIsUnused` | apue.3e/threads/mutex2.c:69-104 | when an object is freed no caller, no other call, no list and no other thread uses it |
| `Mutex2Refines.NoDeadlock` | apue.3e/threads/mutex2.c:19-104 | in every reachable state, if some thread is inside a call, some thread inside a call can step |
| `SemaphInv.StepAct` | apue.3e/lib/semaph.c:105-163 | every system call of create, op and close keeps the invariant |
| `SemaphInv.StepExit` | apue.3e/lib/semaph.c:49-81 | exit at any step, with undo, keeps the invariant |
| `SemaphInv.CounterIsUsers` | apue.3e/lib/semaph.c:15-24 | counter [1] of a set that is ready is BIGCOUNT less its users |
| `SemaphInv.OneLock` | apue.3e/lib/semaph.c:49-54 | [2] excludes: while one process has it no other does |
| `SemaphInv.RunSafe` | apue.3e/lib/semaph.c:105-291 | in every state of a run with fewer than BIGCOUNT users: [1] is BIGCOUNT less the users, a user's set exists, the lock excludes, no close finds [1] above BIGCOUNT, and [0] is its initial value less the undo values unless an undo was cut off |
| `SemaphInv.RemovedUnused` | apue.3e/lib/semaph.c:243-252 | close removes a set only when nobody uses it and nobody else has its lock |
| `SemaphInv.RunRemovesUnused` | apue.3e/lib/semaph.c:243-252 | in every run a close that removes a set finds nobody registered and nobody else with the lock, and removes that set only |
| `SemaphInv.HomeIsKept` | apue.3e/lib/semaph.c:130-153 | [0] of a set is never initialised again once the set is ready |
| `SemaphInv.ReinitIff` | apue.3e/lib/semaph.c:135-153 | a create initialises a ready set again exactly if it has BIGCOUNT users |
| `SemaphInv.TooManyUsers` | apue.3e/lib/semaph.c:43-43 | a run in which BIGCOUNT users make a create overwrite [0] of a set in use |
| `SemaphRuns.OpAdds` | apue.3e/lib/semaph.c:282-291 | a `sem_op` that returns has changed [0] of its set by exactly its amount, within the range, and no other value or set |
| `SemaphRuns.OpWaitsIff` | apue.3e/lib/semaph.c:259-276 | a `sem_op` can go on exactly if [0] stays in its range: a wait exactly if [0] is positive |
| `SemaphRuns.RunAdds` | apue.3e/lib/semaph.c:259-291 | between two states of a run without exit and without a new initial value [0] changes by what was signalled less what was waited for |
| `SemaphRuns.WaitsBounded` | apue.3e/lib/semaph.c:259-276 | what has been waited for never exceeds the initial value given to `sem_create` and what has been signalled |
| `SemaphRuns.RunOwn` | apue.3e/lib/semaph.c:49-81 | what the exit of a process will give back is what its own calls of `sem_op` took, whatever others do |
| `SemaphRuns.ExitUndoes` | apue.3e/lib/semaph.c:49-81 | an exit adds that to [0], cut off at the range |
| `SemaphRuns.CreateSets` | apue.3e/lib/semaph.c:146-148 | the first create gives [0] the value of its argument and changes nothing else |
| `SemaphRuns.CreateFinds` | apue.3e/lib/semaph.c:105-107 | create gets the set of its key, a new one with values 0 exactly if the key had none |
| `SemaphRuns.CloseRemovesIff` | apue.3e/lib/semaph.c:243-252 | a close goes on to remove the set exactly if nobody uses it any more |
| `SemaphRuns.RemovesOne` | apue.3e/lib/semaph.c:243-252 | a removal takes away the set and the keys that lead to it, and nothing else |
| `Inet.FindRun` | unpv13e/libfree/inet_ntop.c:135-156 | the leftmost of the longest runs of at least two zero words, or none |
| `InetText.BestUnique` | unpv13e/libfree/inet_ntop.c:135-156 | there is at most one such run |
| `Inet.Fill` | unpv13e/libfree/inet_ntop.c:132-134 | the words of the address |
| `Inet.Format` | unpv13e/libfree/inet_ntop.c:158-187 | the loop writes the text of the address: compressed, trailing run, embedded IPv4 |
| `InetText.Text6Length` | unpv13e/libfree/inet_ntop.c:123-126 | the text and its null byte fit the buffer of 46 |
| `Inet.Ntop4` | unpv13e/libfree/inet_ntop.c:85-101 | refused exactly if the text is longer than size; else text and null byte are stored, nothing else, and parsing the text gives the address |
| `Inet.OverrunIff` | unpv13e/libfree/inet_ntop.c:95-99 | more than size bytes are stored exactly if the text is size bytes long, never for a size of 16 or more |
| `Inet.OverrunExample` | unpv13e/libfree/inet_ntop.c:95-99 | an address and a size for which that happens |
| `Inet.Ntop6` | unpv13e/libfree/inet_ntop.c:109-198 | the text with the leftmost longest run compressed (`InetPrint.Printed6`), refused exactly if text and null byte do not fit size; else they are stored, nothing else, and parsing the stored text gives the address |
| `InetParse.RoundTrip4` | unpv13e/libfree/inet_pton.c:86-125 | parsing the dotted decimal of four bytes gives the bytes |
| `InetParse.RoundTrip6` | unpv13e/libfree/inet_pton.c:140-224 | parsing the text of sixteen bytes gives the bytes, whichever zero run is compressed |
| `InetGrammar.Parse4Iff` | unpv13e/libfree/inet_pton.c:86-125 | accepted exactly if the text is four numbers up to 255 in decimal digits, leading zeros allowed, with dots between them; the result is their values |
| `InetGrammar.Parse6Iff` | unpv13e/libfree/inet_pton.c:140-224 | accepted exactly if the text is groups of hexadecimal digits of either case, each closed by a colon, with at most one double colon, ending in nothing, a group or a dotted quad, of 16 bytes or fewer with a double colon; the result is the bytes, with zeros at the double colon |
| `InetGrammar.DigitIs` | unpv13e/libfree/inet_pton.c:145-169 | the digits are the characters of the two tables, and the value of a digit is its place in its table |
| `InetPrint.Printed4` | unpv13e/libfree/inet_ntop.c:85-101 | the text of an IPv4 address is its four numbers, without leading zeros, with dots between them |
| `InetPrint.Printed6` | unpv13e/libfree/inet_ntop.c:135-187 | the text of an IPv6 address denotes it, leaves out exactly the leftmost longest run of zero words, has lower-case numbers without leading zeros, and ends in an IPv4 address exactly if the address holds one |
| `Inet.Pton4` | unpv13e/libfree/inet_pton.c:86-125 | the loop accepts what the grammar function accepts; `dst` is written only on success |
| `Inet.Pton6` | unpv13e/libfree/inet_pton.c:140-224 | the loop accepts what the grammar function accepts; `dst` is written only on success |
| `Inet.Pton` | unpv13e/libfree/inet_pton.c:58-74 | 1 with the address that the text denotes by the grammar of its family, 0 exactly if it denotes none, -1 for another family; `dst` is written only with 1 |
| `Inet.Shift` | unpv13e/libfree/inet_pton.c:205-218 | the in-place loop moves the bytes after the double colon to the end and zeros into the gap |
| `InetParse.SpreadIff` | unpv13e/libfree/inet_pton.c:205-218 | it does so exactly if a byte is left out or only zeros follow the double colon |
| `InetParse.FullAddress` | unpv13e/libfree/inet_pton.c:134-134 | in a full address the double colon zeroes every group after it |
| `InetParse.FullAddressIff` | unpv13e/libfree/inet_pton.c:134-134 | it is ignored exactly if every group after it is zero |
| `InetParse.FullAddressExample` | unpv13e/libfree/inet_pton.c:205-218 | an address for which it is not ignored |
| `Rot13.TranslateBuffer` | apue.3e/advio/rot13c2.c:109-110 | the loop translates the first n bytes in place: each letter to the one 13 places further round its alphabet, and nothing else |
| `Rot13.MapTwice` | apue.3e/advio/rot13c2.c:25-40 | translating twice restores the input |
| `Rot13.MapRotates` | apue.3e/advio/rot13c2.c:25-40 | a letter goes to the letter 13 places further round its own alphabet, and every other byte stays |
| `Rot13.StepInv` | apue.3e/advio/rot13c2.c:67-149 | every step of main and every completion keeps the invariant |
| `Rot13.WholeOutput` | apue.3e/advio/rot13c2.c:67-155 | if every read gives a whole block or the rest of the file, a normal exit leaves the input with every letter rotated by 13 and every other byte as it was, for any length and completion order |
| `Rot13.ExitIsRot13` | apue.3e/advio/rot13c2.c:107-108 | for any reads, the output at a normal exit is the input with its letters rotated, byte by byte, up to where the read of the last block ended |
| `Rot13.TwoRuns` | apue.3e/advio/rot13c2.c:25-155 | filtering the output of one run in another run restores the input |
| `Rot13.BuffersApart` | apue.3e/advio/rot13c2.c:69-140 | `numop` is the number of buffers in use, and blocks in use never overlap |
| `Rot13.RunsEnd` | apue.3e/advio/rot13c2.c:67-149 | every step decreases a rank, so every run ends |
| `Rot13.NeverStuck` | apue.3e/advio/rot13c2.c:142-149 | while it runs, main or the kernel can step |
| `GaiList.GaClone` | unpv13e/libgai/ga_clone.c:8-30 | a deep copy after the node, without the clone flag and the name; fails exactly if memory for two allocations is missing |
| `GaiList.WalkIs` | unpv13e/libgai/ga_port.c:37-63 | the walk over the growing list treats every entry of the original once |
| `GaiList.GaPort` | unpv13e/libgai/ga_port.c:30-65 | the walk ends; the list is the specified one, no node and no socket address is shared; the count of entries set; -1 exactly if memory runs out |
| `GaiList.Calling` | unpv13e/libgai/ga_serv.c:14-47 | any sequence of calls gives the specified list and count, and fails exactly if there is less memory than the clones need |
| `GaiList.GaPorts` | unpv13e/libgai/ga_port.c:8-26 | calls for any number of distinct types turn the list on the heap into one group of entries for each address, in order; nothing is shared; the number of entries found; fails exactly if memory for the clones is missing |
| `Gai.FillEachGroups` | unpv13e/libgai/ga_port.c:8-26 | calls for any number of distinct types give one group for each address, in order |
| `Gai.GroupAt` | unpv13e/libgai/ga_port.c:12-16 | a group has for each type an entry with its port, the address, family and protocol; only the first has the canonical name |
| `Gai.GroupsAt` | unpv13e/libgai/ga_port.c:12-16 | the groups follow each other in the order of the addresses |
| `Gai.CostOfGroups` | unpv13e/libgai/ga_port.c:8-26 | calls for any number of distinct types need two allocations for each address and each type after the first |
| `Gai.TypedAt` | unpv13e/libgai/ga_port.c:45-62 | in a list whose types were given a call sets the port of each address of its type and leaves all else |
| `Gai.TypedFound` | unpv13e/libgai/ga_serv.c:49-57 | in such a list the calls find something exactly if an IPv4 or IPv6 address has the type of one of them |
| `Gai.CallsIff` | unpv13e/libgai/ga_serv.c:16-47 | a port number is set for the type of the hints or for both types; a name for each type asked for under which it is found; stream first |
| `GaiList.GaServ` | unpv13e/libgai/ga_serv.c:8-57 | the calls for the hints and the service are made in order; the error tells whether anything was found, and that memory ran out exactly if it did not suffice for the clones |
| `Barrier.FindMin` | apue.3e/threads/barrier.c:68-74 | a segment with numbers left whose next number is the smallest |
| `Barrier.Merge` | apue.3e/threads/barrier.c:59-78 | for any number of sorted segments the output is sorted and a permutation; no index leaves its segment |
| `StrCli.Copier.NeverIdle` | unpv13e/nonblock/strclinonb.c:30-39 | the sets given to select are never all empty |
| `StrCli.Copier.Turn` | unpv13e/nonblock/strclinonb.c:28-122 | a turn that goes on does with the events what they say: a reported read adds its bytes as far as there is room, an empty one ends input, a write takes its count of the bytes that wait; both buffers keep bytes and order and the rule for FIN |
| `StrCli.TurnMoves` | unpv13e/nonblock/strclinonb.c:41-122 | a turn that goes on adds to what is read exactly what the reads give, and writes exactly the bytes that the writes take, next in order |
| `StrCli.TurnByEvent` | unpv13e/nonblock/strclinonb.c:41-122 | the same of the model of a turn, in terms of what select reports and the four calls give |
| `StrCli.RunByEvents` | unpv13e/nonblock/strclinonb.c:27-123 | so does every turn of a run that goes on |
| `StrCli.StatusIff` | unpv13e/nonblock/strclinonb.c:42-121 | by what select reports and the calls give: the run ends normally exactly at the end of the socket after the end of input, prematurely exactly before it, and with an error exactly if a call that is reached fails |
| `StrCli.Copier.Run` | unpv13e/nonblock/strclinonb.c:27-123 | for every schedule all turns are taken until one ends the run, each as its event says; bytes sent and bytes waiting are the bytes that the reads of the schedule gave, in order; FIN at most once, exactly when input has ended and all is sent |
| `Printd.Queue.AddJob` | apue.3e/printer/printd.c:275-294 | the job is last in the list, in both directions |
| `Printd.Queue.ReplaceJob` | apue.3e/printer/printd.c:301-313 | the job is first in the list, in both directions |
| `Printd.Queue.RemoveJob` | apue.3e/printer/printd.c:320-331 | the job is out of the list, wherever it was, and the others keep their order |
| `Printd.ActionMoves` | apue.3e/printer/printd.c:684-840 | only an addition makes a job, only an end ends one, a take finds a job exactly if one waits, and a deferred job is the next to be taken |
| `Printd.RunTally` | apue.3e/printer/printd.c:684-840 | in any interleaving as many jobs have ended as ends found a job taken, and all others added are held or waiting |
| `Printd.Server.Run` | apue.3e/printer/printd.c:684-840 | for every interleaving the jobs added are those of the actions; ended jobs, the held job and the queue are those jobs in order, and how many are in each follows from the actions |
| `Cksum.InCksum` | unpv13e/libfree/in_cksum.c:3-32 | the loop and folds give the one's complement of the one's complement sum exactly if the 32-bit sum does not overflow, so for at most 65537 words |
| `Cksum.FoldAnswer` | unpv13e/libfree/in_cksum.c:27-31 | the two folds and the complement of any 32-bit sum give the complement of its residue modulo 0xffff |
| `Cksum.TooMany` | unpv13e/libfree/in_cksum.c:11-19 | 65538 words whose sum overflows, for which the value is not the checksum |
| `Cksum.Stamp` | unpv13e/ping/send_v4.c:16-19 | the value of `in_cksum` stored in a zeroed aligned field of the buffer makes `in_cksum` of the buffer 0, and changes no other byte |
| `Cksum.OnBothHosts` | unpv13e/libfree/in_cksum.c:3-32 | `in_cksum` on hosts of either byte order gives swapped values, so that the same two bytes are stored (section 2(B) of RFC 1071), odd lengths included |
| `Readline.Reader.MyRead` | unpv13e/lib/readline.c:8-26 | the next byte of the stream whatever pieces it comes in, 0 exactly at its end, -1 exactly if a read failed; nothing lost |
| `Readline.Reader.Readline` | unpv13e/lib/readline.c:28-49 | the line up to the newline or maxlen - 1 bytes, a null byte, and the return value, one more than stored when the buffer fills; -1 exactly if a read failed |
| `Readline.LineCut` | unpv13e/lib/readline.c:35-45 | a line has no newline before its end, and ends with a newline, full, or with the stream |
| `Readline.Reader.ReadAll` | unpv13e/lib/readline.c:28-49 | repeated calls succeed exactly if no read fails, and then give the lines of the stream, which put together are the stream |
| `Rtt.Info.Stop` | unpv13e/lib/rtt.c:79-102 | rule (2.3) of section 2 of RFC 6298; estimators stay between 0 and the largest sample |
| `Rtt.Info.Timeout` | unpv13e/lib/rtt.c:110-119 | the timeout doubles; giving up exactly after the third retransmission |
| `Rtt.FourWaits` | unpv13e/lib/rtt.c:62-67 | four transmissions wait at most 15 times the first timeout and the rounding |
| `Rtt.WaitsAre` | unpv13e/lib/rtt.c:62-67 | one to four transmissions wait 1, 3, 7 or 15 times the first timeout, up to half a second for each |
| `Rtt.ReplyIff` | unpv13e/rtt/dg_send_recv.c:68-89 | there is no reply exactly if none of the four transmissions is answered; else the request is sent until one is, and the reply is the first datagram after it with its number |
| `Rtt.Client.SendRecv` | unpv13e/rtt/dg_send_recv.c:18-93 | the first timeout in [2, 60], the current one or 3 at the start; the waits double up to rounding; the reply is the first datagram with the number of the request, after as many transmissions as needed, at most four; none exactly if none of the four is answered; the estimators take its sample |
| `Rtt.Client.Requests` | unpv13e/rtt/dg_send_recv.c:18-93 | over any sequence of requests each gets the reply and the transmissions of its own arrivals, and the estimators stay in bounds |

## Left out

- `db_open` path handling and access modes, `_db_alloc`, `_db_free`, `db_close` and the statistics counters: bookkeeping.
- The database with many processes leaves out the exits of the process when a pointer passes PTR_MAX or a record is too long or too short, and `db_nextrec`, which locks only the free list.
- DbSafety.NoDeadlock: some process can step, not every one; a process may wait while others keep taking a read lock; fairness of the kernel is not modelled.
- Db.Handle.Store: after an exit of the process with an index file too long for a pointer, the files are described up to the old end; reading them is not modelled.
- Db.Handle.ReadAll: a key of blanks only is stored and fetched like any other but is not listed, because free records look the same to `db_nextrec`.
- Mutex2Refines.RunRefines: `foo_hold` and `foo_rele` are for callers that have a reference; the code cannot know.
- `sem_open` and `sem_rm` called directly: `sem_open` counts a user without the lock.
- SemaphInv.RunSafe: more than one thread of a process in the same function shares the static operation of `sem_op`; processes are taken to have one thread.
- GaiList.GaPort: after a failed allocation nothing is said about the list.
- GaiList.GaServ: `isdigit`, `atoi`, `htons` and `getservbyname` are given as their results.
- Barrier.Merge: `heapsort` and the barrier are the precondition that each segment is sorted; numbers are below LONG_MAX, as those of `random` are.
- Printd.Server.Run: connecting, the headers, the printer's answer, cancellation messages and the list of worker threads are not modelled; a job ends or is deferred.
- Rot13.WholeOutput: the bytes of the input file do not change during a run; `aio_fsync` at the end is not modelled.
- StrCli.Copier.Run: errors other than refusal end the run; signals are not modelled.
- Rtt.Client.SendRecv: floats are reals; the race between the alarm and `sigsetjmp` is not modelled.
- Rtt.Info.Stop: time stamps wrap in the code; the sample is any number of milliseconds.
- Readline.Reader.Readline: a `maxlen` of 0 is not modelled.
- Terminal, signal, daemon and multicast examples, the UNP clients and servers, `io_uring`, `aio` and the C++ notes: thin layers over system calls.
