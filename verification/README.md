# A verified model of the log store

The repository is a log service: clients send log records over a small request format, the server
appends them to *bulks*, keeps an index of keys and words for each bulk, evicts bulks to disk and
reads them back on demand, and answers queries. This project models its core in Dafny and proves
what the code promises.

| file | content |
|---|---|
| `TimerArith`, `TimerSpec`, `TimerRun`, `TimerTheorems`, `TimerWheel` | the three-level timer wheel: firing-time arithmetic, the wheels as values, the state machine of their runs with its invariant, the theorems about every run, and the heap classes with their doubly linked slot lists, each of whose operations makes steps of that state machine |
| `Tries`, `Text`, `LogFile` | the dictionary tree, stream text, and the disk format of tries and lists |
| `Search`, `Logs`, `Records` | k-way intersection and binary searches; the two indexes of a bulk against plain scans; the record text and its offsets |
| `Bulk` | one bulk and its handler: append, persist, release, reload piece by piece, query |
| `Scan`, `Results`, `Answers` | what all bulks together answer; the packing of results into chunks; the lines of each query |
| `Windows` | the search by time over all bulks: which it reaches, what it shows in any order of times, and when that is what was wanted |
| `Store`, `Runs` | the store with its slot ring, global key index, persistence worker and queries; what holds after any run of it |
| `Deadlines` | the store on the timer wheels: after how many ticks a bulk is saved and evicted |
| `Ring` | the message ring, sequential and as a protocol of interleaved steps |
| `Percent`, `Request`, `Queries` | percent-encoding (section 2.1 of RFC 3986), rendering a request and parsing it by cutting the buffer; requests of every kind, with any parameters in any order, against what they are parsed into |

The main results, hardest first:

- **Eviction cannot be seen** (`Runs.RunAndAsk`, `Runs.EvictionUnseen`): after any sequence of appends,
  queries of every kind, passes of the persistence worker and acting timers, every query is answered,
  packed into chunks that fit, from the accepted logs and from how they are cut into bulks; and the
  cut is a function of the appends and the auto-persistence timers alone. Passes, release timers and
  earlier queries, which evict bulks and reload them, leave no trace. Every answer but that of a
  search by time is that of a plain scan of the accepted logs, and a search by time is answered so
  too if nothing is wanted, or if the window begins in time (no log of the key lies before its
  start, and if the key's first log lies on it no other does) and the key's logs behind its end come
  after all others of the key, as they do when in order, and in any order when none lies behind it.
  The runs and questions are those that do not make the program read outside a list. Below it, every
  bulk query is a function of the bulk's logs alone, whatever part of the bulk is in memory; every
  ring slot has one owner at most; a bulk's files are read back as they were.
- **Timers** (`TimerTheorems.TimerActsOnce`, `TimerAccuracy`, `ThreeLevelTimerAccuracy`): in every run
  of ticks, additions and deletions, from any cursor positions, a timer that is not deleted acts
  exactly once, and one that is deleted never does (`CancelledForGood`). By way of two wheels it is
  within one interval of its time and exact when the interval divides it. By way of the third wheel
  this holds *if and only if* the time left on arrival there is not a multiple of N·N·I; otherwise
  the timer acts at least N·I too early (`EarlyFiringHappens` gives one: 82 000 ms acts after
  80 000). The server's own two timers are exact. Every operation of the heap structure, with its
  doubly linked slot lists, extends the run it has made so far by the steps of that state machine,
  so these theorems hold of it: a client that adds a timer and ticks k times finds that it has
  acted exactly when k has reached its firing tick (`TimerWheel.AddAndTick`). On the store this means
  (`Deadlines`): the newest bulk takes logs for 300 ticks after its last append, whatever else
  happens, and from then on is closed and on disk; a bulk on disk keeps its text in memory, if it
  is there, for 120 ticks after a last query by key, and then releases it.
- **Trie file** (`LogFile.RoundTripExactly`): whatever order the child maps iterate in, the file of a
  trie loads back as that trie if and only if no word in it has a whitespace character and the empty
  word has no values. For the tries of a bulk that means exactly: no key has whitespace, and no content
  has a carriage return, a vertical tab or a form feed (`Logs.KeyTrieClean`, `Logs.WordTrieClean`).
- **Time window** (`Store.LogStore.SearchTimeLog`, `Windows.WindowExactIff`): the bulks searched are
  those of the key from the one the binary search finds up to the first that ends before the window,
  because the flag set there is never reset. If in each bulk the key's logs before the window come
  first and those behind it last (as logs in order do, and any logs for a window that has them all),
  the logs wanted in these bulks are shown, and the chunks sent carry the answer wanted *if and only
  if* no log wanted lies in another bulk. Where the end times of the key's bulks increase, that means
  that the window begins before the first of them or exactly at one, or that nothing is wanted
  (`Windows.ReachableIff`): a window that begins inside a later bulk shows nothing, and
  `Runs.WindowMissed` makes such a store with two appends and a timer. Where they do not increase,
  logs of a key in order can be missed though the window begins before the first end
  (`Windows.LaterBulkMissed`). When nothing is wanted nothing is shown, in any order of times, and
  only logs of the key are ever shown.

- **Requests** (`Queries.QueryRoundTrip`, `Request.ParseReq`): a request of any kind with any
  parameters in any order, texts percent-encoded and numbers in decimal, is parsed into exactly
  that kind and those fields, whatever follows it in the buffer; the five queries are also written
  out. Every number form the parser takes is read at its value (`Queries.StrtolReads`).

What results are stated with is itself stated apart from the program, by character codes and written
numbers: which characters separate words and how capitals fold (`Logs.SeparatorsByCode`,
`Tries.FoldByCode`), which are blanks and digits (`Text.SpacesAndDigits`), that a log can be read back
from its record (`Records.RecordReadBack`), which requests are accepted (`Answers.ValidByFields`), how
lines are packed (`Results.Packed`), the two megabytes of a bulk (`Bulk.FitsBytes`), hexadecimal
escapes, and the remarks and limits of answers.

Where the code and its intention differ, the model follows the code: the remark "No result found" of
a key lookup or word search is sent exactly when 50 000 results were (the counter starts at the limit
and is compared with 0), up to 50 001 results are shown, and a hit of a search for several words is
shown as often as all the words occur in it.

Preconditions of an append: the key and content are as the request parser leaves them, and the
content has no carriage return, vertical tab or form feed and the key no whitespace, because such a
character would be lost in the trie files (`Answers.RequestBecomesLog` says what that means for a
request). Sequential operations are modelled as atomic; the interleaving of threads is modelled for
the message ring.

## Model
| member | source | states |
|---|---|---|
| TimerArith.Tail1Accurate | include/TimerWheel.h:200-256 | from a pop on the second wheel a timer acts within one interval of what is left, exactly if the interval divides it |
| TimerArith.Tail2Generic | include/TimerWheel.h:246-256 | a rest that is no multiple of N·N·I leaves the third wheel as from the second plus N ticks, however often it bounces |
| TimerArith.Tail2Multiple | include/TimerWheel.h:246-253 | a rest that is a multiple of N·N·I fires at a third-wheel pop, never late |
| TimerArith.TwoLevelAccuracy | include/TimerWheel.h:172-198 | the closed form of the firing tick is accurate off the third wheel, from any cursors |
| TimerArith.ThreeLevelAccuracy | include/TimerWheel.h:200-265 | by way of the third wheel it is accurate if and only if the rest on arrival is no multiple of N·N·I, with the exact error otherwise |
| TimerSpec.LinkLinks | include/TimerWheel.h:83-90 | inserting a loose unit keeps every unit in exactly one list, at its location |
| TimerSpec.PopUnlinks | include/TimerWheel.h:92-104 | popping takes exactly the head unit out of the lists |
| TimerSpec.UnlinkUnlinks | include/TimerWheel.h:106-121 | deleting takes exactly that unit out of the lists, wherever it is |
| TimerSpec.DelTimerKeeps | include/TimerWheel.h:268-279 | after a deletion the remaining units are linked as before and the recorded one is gone |
| TimerRun.DownFromLevel1 | include/TimerWheel.h:246-256 | a unit that moves from the second to the first wheel keeps its due tick |
| TimerRun.DownFromLevel2 | include/TimerWheel.h:200-226 | a unit that leaves the third wheel, or bounces through it, keeps its due tick |
| TimerRun.FirstLandingTimely | include/TimerWheel.h:172-198 | the corrections of past_time_ on the way up place a new unit where it is due |
| TimerTheorems.AddKeepsInv | include/TimerWheel.h:172-198 | adding keeps the invariant of the wheels |
| TimerTheorems.DelKeepsInv | include/TimerWheel.h:268-304 | deleting keeps it |
| TimerTheorems.TickKeepsInv | include/TimerWheel.h:229-238 | advancing a cursor keeps it |
| TimerTheorems.PopKeepsInv | include/TimerWheel.h:240-258 | popping a unit, which acts or cascades, keeps it |
| TimerTheorems.NextKeepsInv | include/TimerWheel.h:172-304 | every step keeps it |
| TimerTheorems.TimerActsOnce | include/TimerWheel.h:172-265 | in every run a timer not deleted acts exactly once, at its due tick, and is pending until then |
| TimerTheorems.TimerAccuracy | include/TimerWheel.h:172-265 | the tick at which a timer acts is within one interval of its time, exact when the interval divides it, off the third wheel |
| TimerTheorems.ThreeLevelTimerAccuracy | include/TimerWheel.h:200-265 | exactly when a timer is accurate by way of the third wheel, then on the dot if the interval divides its time, and how early it is otherwise |
| TimerTheorems.ServerTimersOnTheDot | include/Config.h:52-56 | the release and auto-persistence timers act after 120 and 300 ticks from any cursors |
| TimerTheorems.EarlyFiringHappens | include/TimerWheel.h:250-253 | a concrete time that fires N·I early |
| TimerTheorems.DelTimerCancels | include/TimerWheel.h:293-304 | one step: DelTimer takes the recorded unit out of the wheels and off the member's record; if members had one pending unit at most, the member has none left |
| TimerTheorems.RecordsStay | include/TimerWheel.h:172-304 | whatever happens, a timer that was added stays on record and a deletion is never undone |
| TimerTheorems.DeletedNeverActs | include/TimerWheel.h:268-304 | in every run a deleted unit is pending in no later state and never acts |
| TimerTheorems.CancelledForGood | include/TimerWheel.h:293-304 | the unit a member recorded when DelTimer was called never acts in the rest of the run |
| TimerTheorems.OnePerMemberKept | include/TimerWheel.h:172-304 | one step: adding only for a member that records no unit keeps at most one pending unit for each member, through cascades and firings |
| TimerTheorems.OnePerMemberInRuns | include/Data_manager.h:215-233 | in every run whose timers are added for members that record none, as delete-then-add does, each member has at most one pending unit, the one it records |
| TimerTheorems.RecordedUntilDue | include/TimerWheel.h:229-265 | a member whose timer was set records its unit until the due tick and none from then on |
| TimerWheel.TimerSlot.Insert | include/TimerWheel.h:83-90 | the intrusive list gets the unit at its head and stays well formed |
| TimerWheel.TimerSlot.Pop | include/TimerWheel.h:92-104 | the head leaves the list; the new head has no predecessor; the location is cleared |
| TimerWheel.TimerSlot.Delete | include/TimerWheel.h:106-121 | the unit leaves the list wherever it is; the rest keeps its order |
| TimerWheel.TimerWheelSet.constructor | include/TimerWheel.h:153-164 | three empty wheels with intervals I, N·I and N·N·I, at the start of a run |
| TimerWheel.TimerWheelSet.AddTimer | include/TimerWheel.h:172-226 | the heap operation extends the run made so far by the step that adds a timer, whose unit is new; nothing happens for time 0 or less |
| TimerWheel.TimerWheelSet.DelTimer | include/TimerWheel.h:293-304 | the heap operation extends the run made so far by the deleting step |
| TimerWheel.TimerWheelSet.SetTimer | include/Data_manager.h:215-233 | delete, then add: the run goes on with these two steps, the new unit is the one the member records and, if members had one pending unit at most, its only one |
| TimerWheel.TimerWheelSet.Tick | include/TimerWheel.h:229-265 | a tick of the heap extends the run made so far by one tick followed by popped units and ends of slots only, so it adds, deletes and forgets no timer |
| TimerWheel.AddAndTick | include/TimerWheel.h:172-265 | after adding a timer and any number of ticks it has acted if and only if its firing tick has come, and then exactly once, at that tick |
| TimerWheel.TickAndLook | include/TimerWheel.h:229-265 | after a tick the member's pointer is null if and only if its timer's due tick has come |
| Tries.InsertCounts | include/Trie.h:27-51 | size_ grows by exactly the nodes an insertion adds |
| Tries.LookupInsert | include/Trie.h:27-67 | an insertion adds its value to the folded word, makes its prefixes present, and changes no other lookup |
| Tries.FoldByCode | include/Trie.h:33-38 | folding adds 32 to the codes 65 to 90 and keeps every other character |
| Tries.PushIsInsert | src/log_processor/data_manager.cpp:40-51 | pushing onto a list that a search found is what an insertion does, with no node added |
| Tries.Trie.Insert | include/Trie.h:101-106 | a valid, writable trie gets the word; any other is left alone; size_ stays the node count |
| Tries.Trie.Search | include/Trie.h:108-117 | null on an invalid trie, else the value list of the node the word leads to |
| Tries.Trie.SetValid | include/Trie.h:86-91 | a root is made when there is none |
| Tries.Trie.DeleteTree | include/Trie.h:119-130 | no tree, invalid, size 1 |
| Tries.Trie.PushBack | src/log_processor/data_manager.cpp:48-50 | push_back through the returned list extends that word's values |
| LogFile.RoundTripExactly | src/log_processor/LogFile.cpp:88-174 | a saved trie loads back as itself if and only if none of its words has a whitespace character and the empty word has no values |
| LogFile.LoadsBack | src/log_processor/LogFile.cpp:125-174 | any breadth-first listing of a clean trie loads back as it |
| LogFile.LoadedSize | src/log_processor/LogFile.cpp:167-173 | ... with size_ the number of its nodes |
| LogFile.LoadedWithoutSpaces | src/log_processor/LogFile.cpp:150-152 | no loaded trie has whitespace on a path |
| LogFile.BlankKeyIsLost | src/log_processor/LogFile.cpp:150-152 | a key with a blank in it does not survive |
| LogFile.ListRoundTrip | src/log_processor/LogFile.cpp:272-346 | a saved offset or timestamp list is read back as it was |
| LogFile.NodeText | src/log_processor/LogFile.cpp:100-108 | the line of a node with two values or none, character by character |
| LogFile.ListText | src/log_processor/LogFile.cpp:276-281 | the file of a list of two entries, character by character |
| LogFile.SaveListFile | src/log_processor/LogFile.cpp:272-289 | the loop writes the list in the file's format |
| LogFile.ReadListFile | src/log_processor/LogFile.cpp:292-307 | the loop reads what the format says |
| LogFile.TrieFile.SaveTrieFile | src/log_processor/LogFile.cpp:88-123 | the queue loop writes each node once, fathers before children, in any child order; the trie is then deleted and read-only |
| LogFile.TrieFile.ReadTrieFile | src/log_processor/LogFile.cpp:125-174 | the trie becomes what the file holds, or is left alone where the program exits |
| Search.CommonIsMin | src/log_processor/data_manager.cpp:505-550 | the common count of a serial is the least of its counts in the lists |
| Search.Join | src/log_processor/data_manager.cpp:525-549 | for sorted lists the loop ends with a sorted list that has each serial exactly as often as all of them have it |
| Search.FindSmallestIterator | src/log_processor/data_manager.cpp:471-485 | the first of the smallest heads |
| Search.AreTheIteratorSerialEqual | src/log_processor/data_manager.cpp:488-501 | whether all heads are the same |
| Search.FindStartTimeSerial | src/log_processor/data_manager.cpp:685-712 | a position that reaches the time behind one that does not, -1 exactly when neither end reaches it |
| Search.FindEndTimeSerial | src/log_processor/data_manager.cpp:714-741 | a position not past the time before one that is, -1 exactly when the first is past it |
| Search.FindWindow | src/log_processor/data_manager.cpp:763-773 | over times that come first when before the window and last when behind it, the window found is exactly the matching positions, and none is found only if there is none; when there is none none is found, in any order |
| Search.SidedIsExact | src/log_processor/data_manager.cpp:685-741 | over such times the two boundaries found enclose exactly the matching positions |
| Search.NothingBetween | src/log_processor/data_manager.cpp:685-741 | with no time in the window the second search turns where the first does or before it, whatever the order |
| Search.StartSplits | src/log_processor/data_manager.cpp:778-804 | over end times that do not decrease the bulk chosen splits them at the start |
| Logs.TokensAt | src/log_processor/data_manager.cpp:87-96 | every maximal stretch of a text without delimiters is one of its words, in its place |
| Logs.SeparatorsByCode | src/log_processor/data_manager.cpp:30-30 | words are separated by tab, newline and the printable ASCII characters that are no letter or digit and none of - _ ' and the bar, and by nothing else |
| Logs.KeyIndexIsScan | src/log_processor/data_manager.cpp:83-109 | the key index answers as a scan: null exactly for a non-prefix of every key |
| Logs.WordIndexIsScan | src/log_processor/data_manager.cpp:83-109 | the word index answers as a scan of the folded words, with multiplicity, in append order |
| Logs.WordSerialsCount | src/log_processor/data_manager.cpp:92-96 | a serial is listed for a word as often as the word occurs in that log |
| Logs.HitIff | src/log_processor/data_manager.cpp:505-550 | a log is a hit exactly when every word of the query is one of its words with the codes of capitals raised by 32 |
| Logs.OccurrencesCount | src/log_processor/data_manager.cpp:92-96 | how often a word occurs is the number of the log's words it is the lower-case form of |
| Logs.JoinIsScan | src/log_processor/data_manager.cpp:505-550 | the intersection of the words' lists is the scan for logs with all of them |
| Logs.KeyTrieClean | src/log_processor/MemoryBulkHandler.cpp:89-96 | the key trie of a bulk survives its file if and only if no key has whitespace |
| Logs.WordTrieClean | src/log_processor/MemoryBulkHandler.cpp:104-111 | the word trie does if and only if no content has a carriage return, a vertical tab or a form feed, because the other whitespace separates words |
| Records.RecordAtOffset | src/log_processor/data_manager.cpp:188-202 | the text from a recorded offset on starts with that log's record |
| Records.LineAtOffset | src/log_processor/data_manager.cpp:298-305 | reading from the offset to the newline gives the first line of the record, in any buffer with the bulk's text |
| Records.FirstLineIsRecord | src/log_processor/data_manager.cpp:247-250 | that is the whole record exactly when key and content have no newline |
| Records.RecordReadBack | src/log_processor/data_manager.cpp:247-250 | a reader who knows the form gets key, time and content back from the record, if no comma is in the key |
| Records.RecordParts | src/log_processor/data_manager.cpp:247-250 | for any key the record is key, decimal time and content in their frame |
| Records.FirstLineEnds | src/log_processor/data_manager.cpp:298-305 | what is shown is the record up to its first newline |
| Records.WindowIsWithin | src/log_processor/data_manager.cpp:745-774 | the scan for a key in a time window is the part of the key's list within it |
| Records.FoundIsWindow | src/log_processor/data_manager.cpp:745-774 | what the two searches find in a bulk is what the scan finds, for logs in turn and when there is nothing to find |
| Bulk.MemoryBulkHandler.constructor | include/Data_manager.h:151-163 | a new bulk appends into its slot, with every part in memory |
| Bulk.FitsBytes | include/Config.h:27-27 | a log has room while its record ends more than a byte before 2 097 152 |
| Bulk.MemoryBulkHandler.Append | src/log_processor/data_manager.cpp:188-218 | -1 exactly for a bulk that is sealed or full, which seals it; else the record is behind the text at the offset returned |
| Bulk.MemoryBulkHandler.BuildIndex | src/log_processor/data_manager.cpp:83-109 | the log joins the bulk: both tries, both lists, size and time span |
| Bulk.MemoryBulkHandler.SetTimer | include/Data_manager.h:215-221 | no release timer while the text is only in its slot |
| Bulk.MemoryBulkHandler.GetData | src/log_processor/MemoryBulkHandler.cpp:44-56 | the bulk's text, reloaded into a buffer of its own when it was evicted |
| Bulk.MemoryBulkHandler.ReadContent | src/log_processor/MemoryBulkHandler.cpp:35-42 | the text read back into a zeroed buffer is the text saved |
| Bulk.MemoryBulkHandler.ReadKeyTrie | src/log_processor/MemoryBulkHandler.cpp:98-102 | the key trie read back is the trie of the logs |
| Bulk.MemoryBulkHandler.ReadWordTrie | src/log_processor/MemoryBulkHandler.cpp:113-117 | the word trie read back is the trie of the logs |
| Bulk.MemoryBulkHandler.ReadIndex | src/log_processor/MemoryBulkHandler.cpp:68-72 | the offsets read back are those of the logs |
| Bulk.MemoryBulkHandler.ReadTimestamp | src/log_processor/MemoryBulkHandler.cpp:83-87 | the times read back are those of the logs |
| Bulk.MemoryBulkHandler.SaveParts | src/log_processor/MemoryBulkHandler.cpp:59-111 | afterwards all four parts are on disk and none in memory, also if some were evicted before |
| Bulk.MemoryBulkHandler.Persistence | src/log_processor/MemoryBulkHandler.cpp:169-195 | everything is on disk, the slot names nobody, the logs are the same; -1 exactly when already saved |
| Bulk.MemoryBulkHandler.ReleaseSpace | include/Data_manager.h:205-212 | when reached by the release timer, only copies of what is on disk are dropped |
| Bulk.MemoryBulkHandler.TimeoutAct | src/log_processor/Persistence_worker.cpp:91-95 | then nothing of the bulk is in memory, its logs are the same and its timer is pending no more |
| Bulk.MemoryBulkHandler.GetOffsetBySerial | src/log_processor/MemoryBulkHandler.cpp:199-206 | the log's offset whether or not the list is in memory, -1 past the last |
| Bulk.MemoryBulkHandler.SearchKey | src/log_processor/MemoryBulkHandler.cpp:208-218 | what a scan of the logs for the key finds, whatever is in memory |
| Bulk.MemoryBulkHandler.SearchKeyword | src/log_processor/MemoryBulkHandler.cpp:221-231 | what a scan for the word finds, whatever is in memory |
| Bulk.MemoryBulkHandler.JoinSearch | src/log_processor/MemoryBulkHandler.cpp:233-243 | what a scan for all the words finds, whatever is in memory |
| Bulk.MemoryBulkHandler.SearchTimeKey | src/log_processor/MemoryBulkHandler.cpp:247-267 | in any order of times the window of the list returned is what the two searches find, whatever is in memory; for logs in turn that is what a scan finds; the search ends exactly past the bulk's end time; it sets the release timer of a bulk on disk exactly if the window meets its time span |
| Bulk.MemoryBulkHandler.GetContentRef | src/log_processor/data_manager.cpp:276-305 | the log's record up to its newline, whatever is in memory |
| Scan.KeyBulksSuffice | src/log_processor/data_manager.cpp:646-671 | the bulks on a key's list, newest first, show what a scan of all logs shows |
| Scan.KeyBackwards | src/log_processor/data_manager.cpp:656-666 | going back through a key's serials shows its logs newest first |
| Scan.JoinBackwards | src/log_processor/data_manager.cpp:601-612 | going back through the hits shows them newest first, each as often as it is hit |
| Scan.CutStep | src/log_processor/data_manager.cpp:645-670 | bulk after bulk the lines are those of the scan, cut at the limit |
| Scan.IndexedInserted | src/log_processor/data_manager.cpp:40-51 | putting the newest bulk behind a key's list keeps the global index right for every word |
| Scan.IndexedListed | src/log_processor/data_manager.cpp:46-47 | a bulk already at the end of the list needs nothing |
| Windows.ChosenBulkSuffices | src/log_processor/data_manager.cpp:778-804 | over increasing ends nothing before the bulk the search starts at is wanted |
| Windows.EndsBehindStart | src/log_processor/data_manager.cpp:778-836 | if the window begins in time for the key, all its bulks are searched |
| Windows.ReachableIff | src/log_processor/data_manager.cpp:778-836 | over increasing ends nothing is missed if and only if the window begins before the first bulk ends or when one ends, or nothing is wanted; otherwise nothing is shown |
| Windows.WindowBulksSuffice | src/log_processor/data_manager.cpp:821-858 | the bulks of a key have every log in the window |
| Windows.WindowExactIff | src/log_processor/data_manager.cpp:807-870 | for logs in turn in each bulk the chunks sent carry the lines wanted if and only if none lies in a bulk that is not searched: the remark that there is no result is no log's line |
| Windows.ShownOfSearched | src/log_processor/data_manager.cpp:821-858 | what is shown is then exactly what is wanted of the bulks searched |
| Windows.WantedParts | src/log_processor/data_manager.cpp:821-858 | what is wanted lies before, in and behind the bulks searched, and nothing is missed exactly if it all lies in them |
| Windows.SettledShown | src/log_processor/data_manager.cpp:807-870 | when nothing is wanted, or the key's logs are in turn and the window begins in time for them, what is shown is what is wanted wherever the bulks were cut |
| Windows.WholeKeyShown | src/log_processor/data_manager.cpp:807-870 | a window that begins before every time of the key and ends no earlier than any shows all its logs in append order, whatever the order of the times and the cuts |
| Windows.OneBulkShown | src/log_processor/data_manager.cpp:807-870 | over one bulk a search by time is the scan, for every window, of logs in turn |
| Windows.LaterBulkMissed | src/log_processor/data_manager.cpp:823-836 | logs of a key in order, no two bulks of which end together, and a window that begins before the first end, for which the search shows nothing though a log is wanted |
| Runs.WindowMissed | src/log_processor/data_manager.cpp:823-853 | a store made by an append, the auto-persistence timer and an append answers that there is no result, though a log is in the window |
| Results.QueryResult.Append | include/QueryResult.h:22-32 | a text that does not fit with two more bytes into 16 375 is refused, and else is behind what was there |
| Results.QueryResultHandler.Append | src/log_processor/data_manager.cpp:333-344 | the line follows all lines before it, and a new chunk is begun exactly when it does not fit |
| Results.QueryResultHandler.Finish | src/log_processor/data_manager.cpp:346-359 | the chunks sent carry exactly the lines, packed as full as they can be in order, the first is marked as begin and only the last, with the statistics, as finish |
| Results.StatisticsText | src/log_processor/data_manager.cpp:346-359 | the last chunk names the number of lines and the time in decimal |
| Store.BulkDataQueue.GetUnit | include/MsgQueue.h:140-161 | the slot lent was free, is cleared and is now the newest; null exactly when 63 are lent |
| Store.BulkDataQueue.ReleaseFrontUnit | include/MsgQueue.h:179-197 | the oldest slot is free again |
| Store.BulkDataQueue.FrontUnit | include/MsgQueue.h:163-177 | the oldest slot lent |
| Store.LogStore.constructor | src/log_processor/data_manager.cpp:136-144 | an empty store has one empty bulk with a slot |
| Store.LogStore.AppendLog | src/log_processor/data_manager.cpp:239-267 | a valid request's log becomes the last of all logs, in the newest bulk if that takes logs and has room and else alone in a new one; an invalid request changes nothing; one to append is accepted exactly with a key and a time |
| Store.LogStore.NewMemoryBulk | src/log_processor/data_manager.cpp:157-174 | a new empty bulk numbered behind the last log, with a slot no other bulk has |
| Store.LogStore.NewBulkDataInit | src/log_processor/MemoryBulkHandler.cpp:5-18 | waiting for a slot ends, and the slot is nobody's |
| Store.LogStore.AddKeyGlobalTrie | src/log_processor/data_manager.cpp:40-51 | the global trie is the index of the bulks with the new log |
| Store.LogStore.FindKey | src/log_processor/data_manager.cpp:52-55 | the bulks holding the key, in order of creation, each once; null exactly for a non-prefix of every key |
| Store.LogStore.CheckBulkDataQueueFull | src/log_processor/Persistence_worker.cpp:38-55 | from 48 slots on the oldest 47 are given back, in order; the newest bulk is not persisted; no log changes |
| Store.LogStore.AutoPersist | src/log_processor/Persistence_worker.cpp:101-103 | the bulk is saved and the store as valid as before |
| Store.LogStore.ReleaseTimeout | src/log_processor/Persistence_worker.cpp:91-95 | the bulk is out of memory, what it frees is never a slot of the ring, and the store is as valid as before |
| Store.LogStore.SlotOwnership | src/log_processor/Persistence_worker.cpp:38-55 | a slot in use names nobody or the one unsaved bulk that has it; no bulk has a free slot |
| Store.LogStore.StartSerialsIncrease | src/log_processor/data_manager.cpp:157-174 | start serials, which name the files, increase strictly |
| Store.LogStore.GetkeyLog | src/log_processor/data_manager.cpp:633-683 | exactly the logs with the key, newest first, as a scan of all logs gives them, up to the limit; accepted exactly for a request of that kind with a key and a client |
| Store.LogStore.SearchLog | src/log_processor/data_manager.cpp:554-628 | exactly the hits of the words, newest first, up to the limit, and the count left; the rejection of other requests; accepted exactly for a request of that kind with words and a client |
| Store.LogStore.ShowWordBulks | src/log_processor/data_manager.cpp:570-594 | a query of one word shows nothing if no log has the word, and reads past a list exactly when one has |
| Store.LogStore.GetRecentLog | src/log_processor/data_manager.cpp:369-406 | the newest logs, as many as asked for; after the rejection of a request the program goes on with a finished handler; accepted exactly for a request of that kind with a count and a client |
| Store.LogStore.LogCountLog | src/log_processor/data_manager.cpp:873-896 | the number of all logs; accepted exactly for a request of that kind with a client |
| Store.LogStore.FindStartTimeBulkhandler | src/log_processor/data_manager.cpp:778-804 | over sorted ends everything left of the result ends by the time, everything right of it later; in any order the result is what the binary search over the ends gives |
| Store.LogStore.SearchTimeLog | src/log_processor/data_manager.cpp:807-870 | in any order of times what is shown is the part found in the bulks searched; for logs in turn in each bulk the answer is the one wanted exactly if nothing is missed; a list is read at -1 exactly for a key that only begins others; accepted exactly for a request of that kind with a key, a start, an end and a client |
| Answers.NarrowedExact | src/log_processor/data_manager.cpp:817-818 | exactly the times that fit an int, or that a negative int stands for, pass through it unchanged |
| Answers.NarrowedIs | src/log_processor/data_manager.cpp:817-818 | the low 32 bits of the time, as a signed number taken for a uint64_t |
| Answers.ValidByFields | include/Http_parser.h:65-95 | which requests are accepted, by kind and fields |
| Answers.LimitedIs | src/log_processor/data_manager.cpp:645-676 | up to 50 001 lines, and the remark exactly behind 50 000 |
| Answers.Remarks | src/log_processor/data_manager.cpp:31-31 | the remarks as they are sent |
| Answers.CountRead | src/log_processor/data_manager.cpp:885-890 | the number in the answer is, in decimal, the number of logs |
| Runs.RunAndAsk | src/log_processor/MemoryBulkHandler.cpp:29-267 | after any run of appends, queries of every kind, passes and timers every query that stays within its lists is answered from the bulks the appends and auto-persistence timers have cut, and as a scan of the accepted logs where the cut does not matter |
| Runs.DefinedIs | src/log_processor/data_manager.cpp:554-870 | the queries that stay within their lists are all but a rejected one for recent logs, one of a single word some log has, and one by time for no log's key that begins some log's |
| Runs.Perform | src/log_processor/data_manager.cpp:157-267 | one step of a run cuts the logs as the cut says: an append fills the newest bulk or begins one, its auto-persistence timer closes it, nothing else has a say |
| Runs.EvictionUnseen | src/log_processor/Persistence_worker.cpp:38-95 | the answer is the same without the queries, passes and release timers of the run |
| Runs.CutHasAccepted | src/log_processor/data_manager.cpp:239-267 | the bulks hold exactly the accepted logs in order |
| Runs.BulksFill | src/log_processor/data_manager.cpp:188-218 | while no auto-persistence timer acts a bulk is left only for a log whose record does not fit into its two megabytes |
| Runs.OneBulk | src/log_processor/data_manager.cpp:188-218 | logs whose records fit into two megabytes are in one bulk while no auto-persistence timer acts |
| Runs.OneBulkSearched | src/log_processor/data_manager.cpp:807-870 | then a search by time over a key in turn is the scan for every window |
| Deadlines.AutoPersistAfter | src/log_processor/Persistence_worker.cpp:60-103 | the newest bulk takes logs for 300 ticks after its last append, whatever happens besides appends, and is closed and on disk from then on |
| Deadlines.ReleaseAfter | include/Data_manager.h:205-221 | the text a bulk on disk has in memory stays for 120 ticks after a last query by key and is then released |
| Answers.RequestBecomesLog | src/common/http_parser.cpp:166-255 | a request that fits is parsed into the log it was rendered from, storable exactly without the three odd blanks |
| Ring.MsgQueue.Write | include/MsgQueue.h:56-84 | refused exactly when full, else the value is the newest queued |
| Ring.MsgQueue.Read | include/MsgQueue.h:114-135 | nothing exactly when empty, else the oldest leaves |
| Ring.NextKeepsInv | include/MsgQueue.h:56-135 | every interleaved step of writer and readers keeps the protocol's invariant |
| Ring.RingIsFifo | include/MsgQueue.h:56-135 | in every run values read followed by values queued are the values written, with at most size-1 queued |
| Ring.SlotsApart | include/MsgQueue.h:72-133 | the slot being written is never the slot being read |
| Percent.DecodeEncode | src/common/url_encode.cpp:9-88 | decoding undoes encoding for every NUL-free byte string |
| Percent.EncodeAlphabet | src/common/url_encode.cpp:17-29 | encoded text has only letters, digits and `-._%` |
| Percent.EncodeIs | src/common/url_encode.cpp:17-29 | letters, digits, - . and _ stay, any other byte becomes % and two capital hexadecimal digits |
| Percent.DecodeIs | src/common/url_encode.cpp:42-84 | an escape in hexadecimal of either case becomes its byte, everything else stays |
| Percent.UrlEncode | src/common/url_encode.cpp:9-33 | the loop writes the encoding and its zero within the buffer |
| Percent.UrlDecode | src/common/url_encode.cpp:65-88 | the loop writes the decoding and its zero within the buffer |
| Request.RequestRoundTrip | src/common/http_parser.cpp:166-255 | a rendered append request is parsed back exactly if its text has at most 1030 bytes, and rejected otherwise |
| Request.RenderText | src/log_service/log_service.cpp:92-96 | the text of an append request |
| Request.ToIntIs | src/common/http_parser.cpp:126-133 | an id is the low 32 bits of the number as a signed one |
| Queries.QueryRoundTrip | src/common/http_parser.cpp:60-255 | a request of any kind with any parameters in any order, an unknown one among them, is parsed into that kind and the fields they set, a later one over an earlier one, whatever stands between its path and the '?' and follows its blank |
| Queries.FieldParameter | src/common/http_parser.cpp:60-164 | each parameter sets its own field: texts cut to 15, 1023 and 31 bytes, numbers unless 0 or too great |
| Queries.SearchTimeQuery | src/common/http_parser.cpp:166-255 | the text of a search by time is parsed into key, start, end and id |
| Queries.GetkeyQuery | src/common/http_parser.cpp:166-255 | the text of a key lookup is parsed into key and id |
| Queries.RecentQuery | src/common/http_parser.cpp:166-255 | the text of a request for recent logs is parsed into count and id |
| Queries.SearchQuery | src/common/http_parser.cpp:166-255 | the text of a search for words is parsed into keyword and id |
| Queries.LogCountQuery | src/common/http_parser.cpp:166-255 | the text of a request for the number of logs is parsed into its id |
| Queries.Refused | src/common/http_parser.cpp:171-205 | only a text that begins with GET, a byte, a slash and the path of a request is parsed, and as that request |
| Queries.WithoutParameters | src/common/http_parser.cpp:207-251 | without parameters every field but the kind is empty |
| Queries.StrtolReads | src/common/http_parser.cpp:98-107 | a number may have blanks and a sign, be hexadecimal behind 0x, octal behind 0 and decimal otherwise, and is held within a long |
| Queries.NumberIs | src/common/http_parser.cpp:98-107 | a parameter's number is refused exactly if it is 0 or an end of a long, and is else taken modulo 2^64 |
| Request.ParseReq | src/common/http_parser.cpp:166-255 | cutting the buffer in place gives what the format says |
| Request.ParseParameters | src/common/http_parser.cpp:230-243 | the cursor loop reads every parameter in order |

## Left out
- Sockets, epoll, shared memory, main loops, printed statistics, the client-id maps: input and output.
- Thread races outside the message ring; in the ring the advance of an index is one atomic step, though the code increments and wraps in two statements.
- RWLock and the locking around handlers: operations are sequential steps here.
- SearchLog: a query of one word that some log has makes the program read past a list (src/log_processor/data_manager.cpp:581, where the loop advances the list pointer instead of the iterator); the contract says when, and nothing about what follows.
- GetRecentLog: after rejecting a request the program goes on with a result handler that is already finished; the contract says when and what was sent until then, and nothing about what follows.
- SearchTimeLog: for a key that is only a prefix of other keys the code indexes a list at -1; the contract says when, and nothing about what follows.
- RunAndAsk: runs with the append of a log that its trie files would not keep, or with a query that makes the program read outside a list, are excluded.
- AppendLog: logs with whitespace in the key, or carriage return, vertical tab or form feed in the content, are excluded, because the trie files lose such characters.
- The timers of bulks are flags that say a timer is pending, acted on by a step at any time of a run; `Deadlines` joins the flag of one bulk to its timer on the wheels, one bulk at a time.
- ReleaseAfter: the last query is a key search in the bulk, and between the ticks nothing else happens to the store.
- MemoryBulk is merged into its handler (they are one to one), and so are their two copies of the time span; the repeated span test in the bulk is left out.
- The 32-bit width of offsets, sizes, serials and timer times, and the truncation of start serials to int; the narrowing of the window times of a time search is modelled.
- N is fixed at 20 and the level intervals at 1, 20 and 400 times a symbolic base interval.
- Trie nodes, slot text and result text are values held in fields of objects: the nodes' own pointers, aliasing between a returned value list and its node (but for push_back), and byte-wise updates of the buffers are not modelled.
- One trie file class stands for the key and the word file, whose code is the same up to a type.
- The file system: a file is the text last written to it; directories, open modes and failures to open are left out.
- Persistence_log, which only sends a fixed answer.
