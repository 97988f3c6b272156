# A verified model of sgopher

sgopher is a Gopher server: worker processes that each run one single-threaded, edge-triggered event
loop over `epoll`, and a listing program, `gopherlist`, that the server runs as a CGI program. This
project models the parts of it that are hard to get right and proves what they promise, for every
input, every answer of the kernel and every run.

`dafny verify dfyconfig.toml` checks the whole project.

| file | what it models |
|---|---|
| `Bytes.dfy` | byte strings, C strings and the scanning functions of the C library |
| `Request.dfy` | the read loop on a client's socket and the split into selector and query |
| `Selectors.dfy` | the path normaliser, what the kernel opens, SCRIPT_NAME |
| `SBuffer.dfy` | `sbuffer.c` and `sbuffer.h`: the write buffer |
| `Listing.dfy` | `gopherlist.c`: collecting, sorting, typing and printing |
| `Links.dfy` | the round trip from SCRIPT_NAME to printed links and back |
| `Menus.dfy` | what a client reads in a menu that gopherlist printed, and where its items lead |
| `Lists.dfy` | the intrusive lists of `sys/queue.h`, as pointers in structures that are freed |
| `Registry.dfy` | what an event loop should do: registrations with serial numbers, nothing ever freed |
| `Sepoll.dfy` | `sepoll.c`: callbacks at reusable addresses, tree, interest list, garbage list |
| `ServerState.dfy` | a worker as a state machine, its invariant, and one function for each handler |
| `ServerRuns.dfy` | the steps of a worker and whole runs of it |
| `Histories.dfy` | what the past of a run settles about its future |
| `Deliveries.dfy` | what a client whose request was taken is sent, over whole runs |
| `Watching.dfy` | who is registered with the event loop, and what becomes of who is not |
| `Timeouts.dfy` | when a client's time is renewed, and what a sweep does to whom |
| `Endings.dfy` | exactly when a client leaves and when its process is killed |
| `Replies.dfy` | which requests are refused, and what their clients are told |
| `WorkerFacts.dfy` | what a handler may rely on half-way through |
| `Scripts.dfy` | what the kernel reports and answers over time, and what it is for a run to follow that |
| `Worker.dfy` | `server.c`: the handlers, the event loop around them, start and clean-up |
| `EndToEnd.dfy` | from a request to a listing to the request for a listed name to what is sent |
| `Signals.dfy` | the signal both processes read |
| `Supervisor.dfy` | `main.c`: the supervisor, the other user of the event loop |

## How it fits together

**Addresses and descriptors are used again.** `malloc` and the kernel may hand out any address or
number that is not in use at the moment, so a stale pointer or a stale event would be caught. A
registration in `Registry` has a serial number that is never used again; `Sepoll.Loop` has only
addresses, and its `Valid` relates the two: reading the function pointer at the address an event
carries tells exactly whether the registration the event was reported for still exists.

**Each handler is code and a function.** The methods of `Worker.Server` are the handlers of
`server.c`, statement by statement over fields, lists and descriptors; each one's contract says that
the new state is a function of the old one (`Now() == Gone(old(Now()), a)`). The invariant `Inv` is
proved of those functions, `ServerRuns.NextKeepsInv` and `EveryStateIsSafe` extend it to all runs, and
`Worker.Server.Enter` shows that whatever the kernel answers, what the handlers do is such a run.

**The world is a parameter.** What `read`, `openat`, `fstat`, `sendfile`, `sfork`, `accept4`,
`epoll_wait`, `malloc` in `sepoll_add` and the clock answer are arguments, unrestricted except where
listed under assumptions.

## What is not as one might expect

- A selector may contain NUL bytes, but paths are C strings. What is opened is the path of the part in
  front of the first NUL (`Selectors.OpenedIsNormalOfCut`). The README of sgopher says that SCRIPT_NAME
  ends in a slash for a directory; behind a NUL that does not start a part that slash is lost
  (`Selectors.ScriptNameIs`), and gopherlist then takes the parent for the directory it lists: exactly
  then (`Links.ContainingIsWorkingDirectory`, with an example in `Links.HiddenSlashMisleads`).
- The link of a listed file leads to that file exactly when its name has no TAB and no CRLF in it, the
  link fits a request, and no NUL hid the slash of the directory (`Links.EntryLinkWorks`, example
  `Links.TabInNameMisleads`). If one did, the link leads to that name one level further up
  (`Links.EntryLinkLeads`), and the parent link two levels up or nowhere (`Links.ParentLinkWorks`).
- A SCRIPT_NAME can be requested again exactly when it fits a request; it then leads to the same file or
  directory, and is a bad request otherwise (`Links.ScriptNameIsUnderstood`). That of the longest
  name a client can ask for without a slash in front does not, because it begins with one
  (`Links.LongestNameIsNotUnderstood`). Where it fits, the path is spelled differently exactly when the
  first NUL starts a part: then it ended in a slash that the new one lacks (`Selectors.ScriptNameReopens`,
  example `Links.CutSlashIsNotReopened`).
- The server ignores failures of `sepoll_add`. In every run, a client is watched by the event loop exactly
  when its own registration did not fail, and its process exactly when the registration of that did not
  (`Watching.SocketsAreWatched`, `Watching.ProcessesAreWatched`, with examples in
  `Watching.SomeoneIsNotWatched` and `Watching.SomeProcessIsNotWatched`). If none fails, everyone is
  watched for what its phase waits for (`Watching.EveryoneIsWatched`). A client of which neither the
  socket nor a process is watched is only ended by the sweep (`Watching.UnwatchedIsLeftAlone`); one whose
  process is not watched stays connected, its process killed, until a later kill fails
  (`Watching.UnreapedUntilKillFails`).
- The supervisor likewise never reaps a worker it could not register, so it can leave its loop without a
  failed wait only if it could register all of them. It leaves with workers alive when `epoll_wait` fails
  (`Supervisor.Supervise`).
- A client departs with less than the file it asked for only in a sweep, in an event with an error or a
  hangup, or when a send fails (`Deliveries.FilesAreSentWhole`).

- The README of sgopher says that the query of a request is present in QUERY_STRING. It is up to its first
  NUL (`EndToEnd.QueryIsTold`).
- A name with a CRLF in it breaks the menu into other lines. In a directory without such names, and without
  TAB in them, a client reads exactly the lines printed (`Menus.MenuReadsBack`).

## Assumptions

- `EPOLL_CTL_MOD` and `EPOLL_CTL_DEL` succeed on open, registered descriptors; `sepoll_mod_events` is
  called by the server with that assumption (server.c:577, 586). `Sepoll.Loop` itself covers a refused MOD.
- No handler enters the loop again, destroys it, or resizes the array of events below the length of
  the batch it is called in. The server and the supervisor do none of these.
- A served file is not truncated while it is sent: `sendfile` moves at least one byte if one is asked
  for and it reports no error. With a 0 the loop at server.c:603-629 would not end.
- `dprintf` writes the whole of an error message (server.c:242-822).
- The unsigned products `timeout * 1000` (server.c:812) and `FDS_SERVER + maxClients * FDS_CLIENT`
  (server.c:1115) do not wrap.
- The clock does not go back, and `time` answers the same throughout one handler.
- The timeout is positive. The process may open as many descriptors as it asked for (server.c:1115).
- The kernel finds a regular file neither at the serving directory itself nor at a path that ends in a
  slash; there only a directory can be found.
- Waking events are among what the mask asks for, besides EPOLLERR and EPOLLHUP, one for each
  descriptor and batch.

## Model

| member | source | states |
|---|---|---|
| Request.Inbox.Read | server.c:226 | a read gives the next bytes of the queue, at least one if there are any, into the buffer behind what is already there |
| Request.ReadRequest | server.c:223-255 | however the bytes are split over reads, the buffer ends up with the first 513 queued bytes, or with the loss that came before |
| Request.ParsePrinted | server.c:257-298 | parsing gives back the selector and query of a printed request, whatever follows its CRLF |
| Request.RequestArrives | server.c:223-298 | through the read loop too, for every request that fits |
| Request.ParsedWasPrinted | server.c:257-298 | every request that parses was some printed request followed by anything, so nothing else is accepted |
| Selectors.Normalise | server.c:300-346 | the loop accepts a selector exactly when no period in it stands at its start or behind a slash, and then leaves the path of its parts, NUL-terminated, within the buffer |
| Selectors.AcceptedIff | server.c:330-335 | accepted are exactly the selectors each of whose periods has a byte of its own part in front of it |
| Selectors.TakePiece | server.c:311-343 | what one turn of the loop keeps: the path built and the bytes to come make up the whole |
| Selectors.PartsAreSplitPieces | server.c:305-343 | the parts are the non-empty pieces of a split at slashes |
| Selectors.PartsOfRender | server.c:303-346 | a path rendered from clean parts splits into the same parts, with or without a final slash |
| Selectors.PathBoundIsTight | server.c:83-87 | path, directory slash and NUL fit MAX_FILENAME_SIZE for every selector that fits, and a selector without slash reaches the bound |
| Selectors.OpenedIsNormalOfCut | server.c:345-349 | what openat is given is the path of the selector up to its first NUL, with a final slash if that NUL starts a part |
| Selectors.CutStaysAccepted | server.c:330-346 | cutting an accepted selector at a NUL leaves an accepted one, so no hidden name is opened that way |
| Selectors.SamePathIff | server.c:303-349 | two selectors open the same path exactly when their parts up to the first NUL agree and both or neither NUL starts a part |
| Selectors.ScriptNameIs | server.c:435-533 | SCRIPT_NAME is the parts up to the first NUL, with a slash for a directory only if there is no NUL or it starts a part |
| Selectors.ScriptNameReopens | server.c:435-533 | taken as a selector, SCRIPT_NAME is accepted with the parts of the one requested, and opens the path by the same spelling exactly when the first NUL of that one does not start a part |
| Selectors.ScriptNameLeadsBack | server.c:435-533 | taken as a selector, SCRIPT_NAME is accepted and its path leads to the same place in the tree, for every accepted selector |
| Selectors.OpenedDescends | server.c:303-349 | walking the opened path from the serving directory goes down its parts and never up, and none of them is hidden |
| SBuffer.Drain | sbuffer.c:49-100 | a flush that returns 0 has written everything, and it never returns a positive value |
| SBuffer.HarmlessDrains | sbuffer.c:52-93 | partial writes and a pipe that becomes writable again only delay: everything gets out |
| SBuffer.DrainIs | sbuffer.c:52-93 | a flush ends at the first answer that does not only delay, with the error of that answer and what was let out before it, unless everything was |
| SBuffer.Buffer.constructor | sbuffer.h:23-36 | an empty buffer from which exactly-once output starts |
| SBuffer.Buffer.Format | sbuffer.c:24 | as much of the text as fits in front of a NUL, and the length it would have |
| SBuffer.Buffer.Push | sbuffer.c:19-47 | a text is accepted whole when it and its NUL fit and not at all otherwise; output and waiting bytes stay everything accepted |
| SBuffer.Buffer.WriteOnce | sbuffer.c:54-92 | one write moves the waiting bytes it took to the output and counts them |
| SBuffer.Buffer.Flush | sbuffer.c:49-100 | exactly the bytes that got out are gone; a failure keeps the rest for a later flush; success empties the buffer |
| SBuffer.Buffer.CheckFlush | sbuffer.h:51-59 | a whole flush below the threshold and nothing at all otherwise |
| Listing.SortedIsUnique | gopherlist.c:33-36 | there is only one sorted arrangement of the names, so any correct qsort gives it |
| Listing.Precedes | gopherlist.c:33-36 | names are ordered by the first byte in which they differ, and a start of a name comes before it |
| Listing.SortNames | gopherlist.c:184-189 | the names in strcmp order, none lost or added |
| Listing.QSort | gopherlist.c:184-189 | the first n names sorted in place |
| Listing.FilterKeepsExactly | gopherlist.c:141-168 | exactly the names that do not begin with a period and have the query in them, but for the case of letters, are kept, each as often as it occurs |
| Listing.Collect | gopherlist.c:118-186 | the growing array holds exactly the filtered names and always has a free slot |
| Listing.TableInOrder | gopherlist.c:48-67 | the extension table is in strcmp order, as bsearch requires |
| Listing.BSearch | gopherlist.c:254-260 | binary search finds what a search from the front finds |
| Listing.FindMenuType | gopherlist.c:229-279 | the menu type by kind of file, permission and extension |
| Listing.TypeByExtension | gopherlist.c:240-266 | the type of a plain file is that of what follows its last period, and binary if that is not in the table or there is no period |
| Listing.FooterIsShort | gopherlist.c:290-296 | the footer fits in the space the threshold keeps free, for any count of files |
| Listing.EmitAll | gopherlist.c:198-210 | texts that fit the room left are all accepted, in order |
| Listing.Check | gopherlist.c:287 | after the threshold check a line of the allowed length fits again |
| Listing.PrintLines | gopherlist.c:216-287 | one line for each file with a type, in order, up to the first file that cannot be examined; none is dropped if lines are short and writes succeed in the end |
| Listing.Finish | gopherlist.c:290-298 | the footer is accepted and everything waiting is written |
| Listing.List | gopherlist.c:79-301 | with short lines and a reliable descriptor the output is exactly header, one line for each surviving name in sorted order, and footer; in any case it is a start of whole texts of that menu in order |
| Links.ContainingIsWorkingDirectory | gopherlist.c:88-108 | the directory taken from SCRIPT_NAME is the one gopherlist runs in, exactly unless a NUL hid the slash of a directory |
| Links.RenderedPathWorks | server.c:223-346 | a rendered path requested as it stands is accepted and leads to its components |
| Links.ScriptNameIsUnderstood | server.c:223-533 | SCRIPT_NAME requested again arrives as it is and leads to the same place exactly when it and its CRLF fit a request, and is a bad request otherwise, for every accepted selector |
| Links.LongestNameIsNotUnderstood | server.c:255-266 | an input for which it does not fit: the letter a as often as a request allows is accepted, but its SCRIPT_NAME is a bad request |
| Links.UnsafeLinkIsCut | server.c:223-298 | a link with TAB or CRLF, or too long, reaches the server as a proper prefix |
| Links.EntryLinkLeads | gopherlist.c:284 | the link of a listed name leads to that name in the directory gopherlist takes itself to be in, exactly when the name is free of TAB and CRLF and the link fits a request |
| Links.EntryLinkWorks | gopherlist.c:284 | it leads to the file of the directory gopherlist runs in exactly when, besides, no NUL hid the slash of the directory |
| Links.ParentLinkWorks | gopherlist.c:96-210 | there is a parent link exactly when the directory gopherlist takes itself to be in is not the root; below the root it is there and leads one level up from where gopherlist runs exactly when no NUL hid the slash |
| Links.ItemReadsBack | gopherlist.c:209-284 | a menu line gives back the four fields it was printed with |
| Links.FollowingAnEntry | gopherlist.c:284 | reading an entry and requesting the selector in it leads to the listed file in the listed directory exactly when the link fits and no NUL hid the slash |
| Links.HiddenSlashMisleads | gopherlist.c:88-108 | an input for which the listed directory is wrong |
| Links.CutSlashIsNotReopened | server.c:435-533 | an input whose SCRIPT_NAME opens the same directory by another spelling |
| Links.TabInNameMisleads | gopherlist.c:284 | a file name whose link leads elsewhere |
| Menus.ReadsLines | gopherlist.c:198-298 | lines printed one after the other, each with its CRLF, are read back |
| Menus.HeaderIs | gopherlist.c:198-210 | the header names the directory listed and the search, and offers the path one level up exactly below the root |
| Menus.LinesAreEntries | gopherlist.c:216-284 | one line for each name with a type, in the order of the names |
| Menus.TypedAre | gopherlist.c:229-279 | the names with a type are all those that have one, each as often as it occurs |
| Menus.NamesAreWanted | gopherlist.c:141-189 | the names listed are those that are not hidden and have the word of the search in them, each as often as it occurs |
| Menus.NamesAreFiles | gopherlist.c:145-148 | every name listed is that of a file of the directory that is not hidden |
| Menus.DecimalReadsBack | gopherlist.c:293 | the number of files found is read as it was printed |
| Menus.MenuReadsBack | gopherlist.c:198-298 | a client reads exactly the lines of the page: title, search, parent link, items, count and end |
| Menus.ItemLeads | gopherlist.c:207-284 | each item of the printed menu is the parent link of a directory below the root, or that of a listed name, and leads there exactly when it fits a request |
| Menus.MenuIsListing | gopherlist.c:198-298 | the printed menu ends with its only line that begins with a period, has a parent link below the root, an item for each name with a type, and the number of them for a search |
| Replies.LostAreDropped | server.c:228-251 | a connection that ends or is reset before the buffer is full gets no answer, one that fails an internal error |
| Replies.UnendedIsBad | server.c:257-266 | a bad request is exactly one with no CRLF in the first 513 bytes |
| Replies.HiddenAreForbidden | server.c:330-335 | a selector with a period at its start or behind a slash is forbidden, whatever the directory holds |
| Replies.MissingAreRefused | server.c:349-442 | not found, forbidden and internal error for what cannot be opened, is neither file nor directory, or has no index that is a file |
| Replies.FoundAreServed | server.c:444-587 | any other request is sent its file, or has it run with its SCRIPT_NAME and its query, or an error if no process can be started |
| Replies.RefusalsAreTold | server.c:221-598 | in every run a client whose request is refused departs at once, sent that error and nothing else |
| EndToEnd.LinkIsDecided | server.c:223-594 | requesting a link, with or without a query, by a request that fits is decided by what is at the path it leads to: a regular file is sent, or run with its path and the query if it is executable; of a directory the index file is, run with a slash behind the path; anything else, and any failure, gets its error |
| EndToEnd.QueryIsTold | server.c:531-536 | a program run for a request is told the query that was sent, up to a NUL |
| EndToEnd.SearchesAreFiltered | gopherlist.c:141-168 | gopherlist run for a request with a word lists exactly the names that are not hidden and have that word in them |
| EndToEnd.TypeTellsDelivery | gopherlist.c:229-279 | the menu type tells what the server does with the link: 7 is run with what is typed, 1 is looked into for an index, any other is sent, and what has no type would be forbidden |
| EndToEnd.ListingFits | server.c:531-542 | run by the server, gopherlist always has header and lines short enough for its threshold, so that Listing.List applies in full |
| EndToEnd.EnvironmentFits | server.c:531-536 | SCRIPT_NAME and QUERY_STRING are never truncated |
| EndToEnd.RunIsFor | server.c:435-533 | a CGI program is told the SCRIPT_NAME of an accepted selector free of TAB and CRLF |
| EndToEnd.MenuIsDelivered | gopherlist.c:79-301 | in every run: a client that requests the selector of any item of the printed menu, perhaps with a query, is, from then on, given exactly what the item is for, file, program, index of a directory or refusal, or has departed with that; the directory listed is the one gopherlist ran in exactly when no NUL hid the slash |
| EndToEnd.ListedNamesAreDelivered | gopherlist.c:284 | the same for one entry, whatever other names the directory has |
| EndToEnd.ListedDirectoriesAreListed | gopherlist.c:88-108 | requesting a listed directory runs its index there, with a SCRIPT_NAME that makes gopherlist list that very directory and the query that was sent |
| Lists.RemoveLinked | sepoll.c:403 | unlinking through next and previous pointers leaves the list without that element |
| Lists.IntrusiveList.InsertHead | server.c:720 | the element is put in front |
| Lists.IntrusiveList.Remove | server.c:179 | exactly that element is taken out, the order of the others kept |
| Lists.IntrusiveList.Next | server.c:793 | the successor of an element |
| Registry.LiveAfter | sepoll.c:327-347 | only a removal of its descriptor ends a registration, and nothing brings it back, not even a new one for the same descriptor |
| Registry.CalledUnlessRemoved | sepoll.c:368-377 | the calls made for a batch are exactly the events whose descriptor no earlier call of the batch removed, in order, once each |
| Registry.SucceedsIff | sepoll.c:210-347 | when each operation succeeds, and when it fails because a descriptor is registered already, or not |
| Registry.OnlyItsOwn | sepoll.c:210-347 | an operation changes nothing but the registration it is about, and that as it says |
| Registry.GoesOnUntilAsked | sepoll.c:360-409 | the loop goes on exactly until a handler that is called, or the function given, asks it to exit, or a wait fails or times out with no function given |
| Registry.BatchDelivery | sepoll.c:360-409 | the same from epoll_wait on, also when a handler exits the loop or resizes the array |
| Sepoll.NullMeansRemoved | sepoll.c:370-372 | the address an event carries is allocated, and its function pointer is set exactly when the registration still exists |
| Sepoll.BatchSurvives | sepoll.c:338-343 | the addresses of a batch stay good while no callback in use is freed |
| Sepoll.FreeAgrees | sepoll.c:396-408 | freeing the garbage list leaves the callbacks of the tree |
| Sepoll.Loop.constructor | sepoll.c:104-141 | a loop with nothing registered |
| Sepoll.Loop.Add | sepoll.c:210-257 | a new registration in tree and kernel, or an error and no change to any table |
| Sepoll.Loop.Enroll | sepoll.c:241-256 | EPOLL_CTL_ADD for a callback just put in the tree completes the registration |
| Sepoll.Loop.Mod | sepoll.c:260-286 | mask and callback replaced, or an error and no change |
| Sepoll.Loop.ModEvents | sepoll.c:289-306 | the mask alone replaced, or an error and no change |
| Sepoll.Loop.ModCallback | sepoll.c:309-324 | the callback alone replaced, or an error and no change |
| Sepoll.Loop.Remove | sepoll.c:327-347 | gone from tree and kernel, its callback kept on the garbage list with a NULL function |
| Sepoll.Loop.Exit | sepoll.c:415-418 | the loop is asked to end and nothing else changes |
| Sepoll.Loop.Resize | sepoll.c:143-173 | the array changes its size and keeps the batch, or nothing changes |
| Sepoll.Loop.ReportsAreWakes | sepoll.c:363 | what the kernel can report from its interest list is what the registrations allow |
| Sepoll.Loop.Wait | sepoll.c:363 | the front of the array holds the callback addresses of the descriptors reported |
| Sepoll.Loop.Fetch | sepoll.c:368-375 | the handler of the next event if its registration still exists, and nobody otherwise |
| Sepoll.Loop.Collect | sepoll.c:396-408 | afterwards the garbage list is empty and exactly the callbacks of the tree are allocated, unchanged |
| Sepoll.Loop.DispatchBatch | sepoll.c:368-377 | for any handlers, the calls made for a batch are those the registrations promise |
| Sepoll.Loop.Enter | sepoll.c:354-412 | for any handlers and answers of the kernel, the whole loop makes the calls the registrations promise, returns -1 exactly when waiting failed with no function given, and leaves only callbacks of the tree |
| Sepoll.Loop.Destroy | sepoll.c:175-203 | every callback, in the tree or on the garbage list, is freed once |
| ServerState.GoneKeepsInv | server.c:153-184 | disconnecting a client in any situation, also in the middle of its own event, leaves everything in order |
| ServerState.OwnStepKeepsInv | server.c:216-654 | a step that concerns one client leaves everything in order if it leaves that client so |
| ServerState.ServingKeepsInv | server.c:582-597 | so does getting ready to send a file |
| ServerState.SpawnedKeepsInv | server.c:447-597 | so does starting a process, whether or not it can be registered |
| ServerState.RepliedDropKeepsInv | server.c:239-266 | so does an error message and a disconnect |
| ServerState.OnReadableKeepsInv | server.c:221-598 | so does a request, whatever it comes to |
| ServerState.OnWritableKeepsInv | server.c:600-641 | so does sending, wherever it stops |
| ServerState.KillOrDropKeepsInv | server.c:189-199 | so does killing a process, or disconnecting when that fails |
| ServerState.ClientEventKeepsInv | server.c:216-654 | so does a whole event of a client, with any combination of conditions |
| ServerState.AdmitAllKeepsInv | server.c:659-724 | so does accepting connections, with descriptors and addresses that may have been used before |
| ServerState.SweepDropsDoomed | server.c:787-830 | the sweep disconnects exactly the clients that are overdue and have no process, or a silent one that cannot be killed, and leaves the others untouched |
| ServerState.TimerKeepsInv | server.c:774-831 | after a sweep no client without a process has been idle for the timeout, and no client whose time is less than that ago is gone |
| ServerState.Transfer | server.c:603-629 | the send loop ends, never moves more than is left, and has moved all of it when it finishes |
| ServerState.Config.EightCores | server.c:73-74 | three standard descriptors and five of the server |
| ServerRuns.PopKeepsInv | sepoll.c:368-377 | between two events of a batch everything is in order |
| ServerRuns.EventIsExpected | server.c:216-641 | an event that reaches client_socket finds its client in the list, in the phase its conditions are for |
| ServerRuns.ExitIsExpected | server.c:204-211 | an event that reaches client_pidfd finds its client in the list |
| ServerRuns.NextKeepsInv | server.c:1193 | every step of the process leaves everything in order |
| ServerRuns.RunKeepsInv | server.c:1193 | every state of every run is in order |
| ServerRuns.NextPops | sepoll.c:368-377 | a handler is called for one event and uses up that event alone |
| ServerRuns.NextKeepsClock | server.c:1193 | time passes between the steps of the process only |
| ServerRuns.RunsUntilTold | server.c:740-769 | the process goes on exactly until a SIGTERM is read or a wait fails |
| ServerRuns.InitialIsOk | server.c:1120-1188 | the process starts in order |
| ServerRuns.OpenDescriptors | server.c:73-77 | open are eight descriptors and one or two for each client, and fewer than the limit asked for |
| ServerRuns.EveryStateIsSafe | server.c:1193 | in every state of every run, also in the middle of a batch: callbacks belong to listed clients, clients are in one phase, waited on for input, for output or for neither as that asks if they are registered, counted and capped, descriptors conserved, departures counted once, nobody sent both bytes and an error, and idle time bounded by two timeouts |
| Histories.NextIsLater | server.c:1193 | no step brings back who departed, shrinks what was sent or accepted, or makes a client wait for a request again |
| Histories.RunIsLater | server.c:1193 | nor does any stretch of a run |
| Histories.TakenOnce | server.c:221-598 | a step that takes a request finds its client waiting for one and leaves it busy or gone |
| Histories.RequestsAreTakenOnce | server.c:221-598 | the request branch runs at most once for each client accepted, in every run, although addresses and descriptors are used again |
| Histories.TransferIs | server.c:603-629 | the send loop ends with the first send that moves nothing, for the reason of that send, unless the ones in front of it move everything |
| Histories.DeliveryIsExact | server.c:600-641 | in one send event exactly the bytes counted go out, the whole file if the transfer finished, an error message only if none had |
| Deliveries.TakingAnswers | server.c:221-598 | the step that takes a request leaves its client holding what it asked for, or departed with the reply |
| Deliveries.NextAnswers | server.c:1193 | no step, of whichever client, changes what a client whose request was taken is being given |
| Deliveries.EveryoneIsAccountedFor | server.c:707-722 | every client ever accepted is connected or has departed, and not both |
| Deliveries.RequestsAreAnswered | server.c:1193 | from its request on, in every state of every run, a client is being sent the file decided on, with exactly the bytes counted out, or served by its process, or has departed with the start of that file, with nothing from the server, or with exactly the reply |
| Deliveries.DepartsWithAll | server.c:600-641 | in one step a client being sent a file departs only with all of it, unless swept, told of an error or hangup, or failing to be sent to |
| Deliveries.FilesAreSentWhole | server.c:600-641 | in every run a client whose request was for a file is connected, or has had the whole file and no error message, or departed in a step that was one of those exceptions |
| Watching.NextWatch | server.c:1193 | no step loses who is watched or finds who is not, and if its registrations succeed, who comes and whoever gets a process is watched |
| Watching.SocketsAreWatched | server.c:707-722 | in every run, for as long as it is connected, a client is watched exactly when its registration did not fail |
| Watching.ProcessesAreWatched | server.c:577-580 | and its process exactly when the registration of that did not fail |
| Watching.EveryoneIsWatched | server.c:707-722 | if no registration fails, in every state each client has its socket registered with the mask of its phase and its process, if any, for exiting |
| Watching.SomeoneIsNotWatched | server.c:707-722 | a run after which a connected client is not registered |
| Watching.SomeProcessIsNotWatched | server.c:577-580 | a step after which a running process is not registered |
| Watching.AdmissionsAreFair | server.c:685-722 | of the connections accepted at once, each is turned away as unavailable exactly if the server is full by then, with an internal error exactly if there is no memory, and otherwise waits for its request as the next client |
| Timeouts.StepStamps | server.c:594-634 | who is let in, heard or sent to in a step and still connected has the time of that step, and everyone else keeps theirs |
| Timeouts.TimerTreats | server.c:787-830 | one sweep, for each client: left alone if idle for less than a timeout or known to have sent something in that time; otherwise its process killed, or disconnected, with a timeout error if it was sent nothing |
| Timeouts.ActiveAreSpared | server.c:631-634 | in every run, whoever was let in, heard or sent to less than a timeout before a sweep is left alone by it, with all it has open |
| Timeouts.SweepsAreExact | server.c:787-830 | in every run, what a sweep does to a client is settled by how long ago it was last let in, heard or sent to, and by what is known of its process |
| Timeouts.EveryoneHasStirred | server.c:707-722 | there is such a last time for everyone |
| Endings.EventSparesOthers | server.c:216-654 | an event of one client leaves all that the others have open as it was |
| Endings.EventEnds | server.c:216-654 | after its own event a client is gone exactly if its request came to nothing to send or run, the sending has ended, or there was an error or hangup and no process to kill for it; and its process is killed exactly on an error or hangup |
| Endings.ExitEnds | server.c:204-211 | when its process exits, a client is disconnected with nothing more sent |
| Endings.LeavesExactly | server.c:1193 | in every step, of any kind: exactly when a client leaves, and exactly when its process is killed |
| Watching.OnlyOwnEvents | server.c:204-216 | an event changes nothing for any other client |
| Watching.UnwatchedIsLeftAlone | server.c:787-830 | a client that is not registered is left as it is by everything but the sweep |
| Watching.UnreapedUntilKillFails | server.c:189-199 | a client whose process is not registered departs only when killing that process fails |
| WorkerFacts.DroppingUndoesOpening | server.c:348-442 | a request given up half-way leaves the process as if nothing had been opened |
| WorkerFacts.RoomForOneMore | server.c:348-448 | there is a descriptor left for the next file or process of a request |
| WorkerFacts.SweepTurn | server.c:791-830 | the successor read before a client is freed is the next one to look at |
| WorkerFacts.SignalledAre | server.c:809-815 | a sweep sends a signal to exactly the processes of clients that are overdue and not known to have sent anything for a timeout |
| WorkerFacts.ProcessesAre | server.c:1048-1077 | the processes killed at the end are those of all clients, each once |
| WorkerFacts.CloseTurn | server.c:1048-1077 | each client of the list still has its descriptors open when its turn to be cleaned up comes, and they are its own |
| Worker.Kernel.Allocate | server.c:348-672 | the kernel gives any descriptor that is not open |
| Worker.Kernel.SendFile | server.c:605 | the next bytes of the file behind those already sent |
| WorkerFacts.WatchedIsCore | server.c:1186-1188 | only the server's own descriptors are watched, for input, and all three if nothing fails |
| Worker.Server.constructor | server.c:1120-1188 | the process starts with nothing open but its own descriptors, and all three of its sources of events watched if nothing fails |
| Worker.Server.Watch | server.c:1186-1188 | each of the three is registered with its mask and handler, in this order, unless its registration fails |
| Worker.Server.Release | server.c:155-176 | all descriptors of a client closed once each, the socket and process taken out of the loop before |
| Worker.Server.Disconnect | server.c:153-184 | the new state is the old one without the client, its descriptors and its registrations |
| Worker.Server.Refuse | server.c:351-369 | an error path of a request: an error message, and nothing left open |
| Worker.Server.OnRequest | server.c:221-598 | the whole request branch does what the decision about the request says |
| Worker.Server.ServeRequest | server.c:300-598 | an accepted selector is looked up, another is refused |
| Worker.Server.OpenRequested | server.c:348-442 | regular files are launched, directories looked into, others and failures answered with the right error |
| Worker.Server.OpenIndex | server.c:391-435 | the index file of a directory, with the directory kept open meanwhile |
| Worker.Server.Launch | server.c:444-587 | run if world-executable, otherwise to be sent |
| Worker.Server.Spawn | server.c:448-597 | the file is closed, the socket left to report errors, the process registered |
| Worker.Server.SendLater | server.c:585-597 | the file size is set and the socket waited on for output |
| Worker.Server.SendOnce | server.c:605-627 | one sendfile moves the count and the output together |
| Worker.Server.SendLoop | server.c:603-629 | the loop moves what the transfer function says and ends |
| Worker.Server.OnSendable | server.c:600-641 | the whole send branch |
| Worker.Server.KillClient | server.c:189-199 | the process is killed, or the client disconnected |
| Worker.Server.ClientSocket | server.c:216-654 | the whole handler |
| Worker.Server.ClientPidfd | server.c:204-211 | the client whose process ended is disconnected |
| Worker.Server.TurnAway | server.c:691-704 | a connection that cannot be served gets its error message and is closed |
| Worker.Server.LetClientIn | server.c:707-722 | a client structure at a free address, registered, first in the list, counted |
| Worker.Server.ServerSocket | server.c:659-724 | every waiting connection is let in or turned away, as the count and the memory say |
| Worker.Server.ServerTimer | server.c:774-831 | the loop over the list does the sweep, although it frees what it walks on, and sends signals to exactly the silent processes, in the order of the list |
| Worker.Server.ServerSignal | server.c:740-769 | the loop is asked to end exactly when a SIGTERM was read |
| Worker.Server.HandleEvent | sepoll.c:370-375 | the next event is a step of the state machine: that of the handler registered, in the world as it answers, or none if the registration is gone |
| Worker.Server.Batch | sepoll.c:368-377 | the events of a batch are steps one after the other, each handled with its own answers and at its own time |
| Worker.Server.ServeEvent | sepoll.c:370-375 | the clock is looked at, then one event handled, with the answers given for it |
| Worker.Server.Wait | sepoll.c:363-395 | a report the kernel can make wakes the loop with it, any other answer ends it |
| Worker.Server.Round | sepoll.c:360-409 | one turn of the loop: the wait, each event of the batch handled with its own answers and at its own time, and the garbage collected |
| Worker.Server.Enter | server.c:1193 | whatever the kernel reports and answers, what the handlers do is a run of the state machine with just these reports, event by event just these answers, and the clock as it was looked at, up to the last of them unless asked to exit or waiting fails |
| Worker.Server.Cleanup | server.c:1033-1101 | all memory is freed, every descriptor but the standard ones closed once, and each process still running killed |
| Scripts.ClockIsLatest | server.c:789 | the clock shows the latest time it was looked at |
| Worker.ServerProcess | server.c:1106-1198 | from start to clean-up: a run from the initial state that follows the reports, answers and times given, after which only the standard descriptors are open |
| Supervisor.AliveAre | main.c:149-166 | the workers alive are those not reaped, each as often as it is there |
| Supervisor.SignalsReachAll | main.c:171-202 | each SIGTERM read reaches each worker alive once, and nobody else |
| Supervisor.ReapAgrees | main.c:224-231 | reaping a worker keeps the count, the descriptors and the callbacks in agreement |
| Supervisor.Supervisor.Spawn | main.c:368-407 | exactly the workers whose fork succeeded have a descriptor |
| Supervisor.Supervisor.SignalAllWorkers | main.c:149-166 | one signal to each worker that has not been reaped |
| Supervisor.Supervisor.SigfdEvent | main.c:171-202 | for each SIGTERM read one signal to each worker that has not been reaped, and nothing for other signals |
| Supervisor.Supervisor.Watch | main.c:456-464 | the signalfd and exactly the workers that could be spawned are watched, except where registering fails |
| Supervisor.Supervisor.PidfdEvent | main.c:207-237 | the worker is reaped, and the loop told to exit exactly if it was the last |
| Supervisor.ProgressGoesOn | sepoll.c:368-377 | in the middle of a batch exactly the workers seen to exit are reaped, and the others still have their registrations |
| Supervisor.Supervisor.Round | sepoll.c:360-409 | of a batch exactly the workers reported to have exited are reaped, signals go, event by event, to exactly the workers alive then, and the loop goes on exactly while a worker is left |
| Supervisor.Enter | sepoll.c:354-412 | over any number of turns workers only ever get reaped, never one whose registration failed, and only workers spawned are signalled |
| Supervisor.Supervise | main.c:358-470 | the loop is left with every worker reaped and its descriptor closed, which takes that every one of them could be registered, or with one alive when waiting fails; with no worker it is not entered; only workers spawned are signalled |

## Left out

- Handlers are not passed to the loop as function pointers. `Sepoll.Loop.Enter` is the loop for any handlers, given as the operations they ask for; the worker and the supervisor spell out the same loop over the same methods `Start`, `Wait`, `Fetch`, `Exit` and `Collect`, with their own handlers in the place of the call.
- The inside of kernel calls, sockets, `epoll`, `clone3` and signals: they are answers, given as parameters.
- The CGI child after the fork (server.c:450-563), except the values of SCRIPT_NAME and QUERY_STRING. What a CGI program itself writes to the socket is not part of the output recorded for its client.
- Option parsing, opening sockets, timers and signal descriptors, log messages, and failures during start-up.
- `gophertester.c`, `smalloc.c` and `sfork.c`: they would only add easy members.
- The balancing of glibc's tree, the steps of its `qsort`, and the expansion of format strings by `vsnprintf`: the tree is a map, sorting and formatting are given by what they compute.
- Memory failures in gopherlist and the order in which `readdir` gives names; the order does not matter to the result.
- Symbolic links and permissions: paths are walked in a plain tree of names.
- The grammar of menus: the `i` lines of gopherlist carry no fields, so only entry and parent lines are read back.
- The request buffer is a field of the client in the source and a local array here; it is used in one event only.
- Worker.Server.Enter: ends after a given number of waits, so runs are finite prefixes; every state of an endless run is in one.
- Worker.Server.Spawn: a MOD that the kernel refuses on a registered socket is assumed not to happen.
- Worker.Server.SendLater: the same.
- Worker.Server.Cleanup: the exit in the middle of start-up, with some descriptors not yet open, is not modelled.
- Supervisor.Supervise: the clean-up of the supervisor and the closing of inherited descriptors in a forked worker are not modelled.
