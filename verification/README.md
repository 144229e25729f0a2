# gtscreen: verified model

gtscreen is a small display server. A client shares a pixel buffer (a "sprite") with it, speaks a
byte-stream protocol over a socket, reports damaged rectangles, and receives vsync acknowledgements and
input. This project models its five stateful cores in Dafny and proves what they keep over whole runs.
`dafny verify dfyconfig.toml` checks everything.

| module | models |
|---|---|
| `Wire`, `Link` | framing: the 960-byte read, its completion, the dispatch loops, and one direction of a connection as a run |
| `Blit`, `BlitExact`, `Damage`, `Display` | the block copy with its 16-bit arithmetic, the 32 damage slots, and runs of drawing, reporting, switching and vblank |
| `Handshake`, `Conversation`, `Session`, `LostWakeUps`, `Effects` | the server's handlers, one client joined to the server by two channels, the server with all its clients (library clients, and foreign programs that send what they like), its failing runs, and what each step does to whom |
| `PollRegistry`, `ScreenList`, `Registry` | the linked lists and tables in memory, each method proved against a sequence or the handlers of `Handshake` |
| `Keys`, `Surface`, `Reports`, `Evdev`, `Clock`, `Modes` | key bitmap, multi-touch machine, what it reports as read off the events, event loop, time arithmetic, choice of the display mode |
| `Common`, `Lists`, `ClientRecord` | shared types, sequence facts, the client record |

Code that works in place (arrays, linked lists, cursors) is an imperative class or method whose contract
equates the new state with a function of the old one; the properties are then lemmas about those functions.
The build modelled is the one in `Makefile`: 32-bit, PIXL_ALIGN 32 with the assembly copy, and also
PIXL_ALIGN 16 with `memcpy`, the default in `fb.c`.

Where the code does less than one would expect, the exact condition is proved:

- `copy_to_fb` refuses a rectangle if and only if it reaches into an incomplete last grid cell
  (`BlitExact.RefusedIff`). `get_mode_idx` only asks for a width divisible by 16, so with PIXL_ALIGN 32 a
  1360-pixel mode is accepted and its right edge can never be copied (`Modes.ChosenModeMayRefuse`).
- A refused copy also withholds the vsync acknowledgement (`LostWakeUps.WakeUpLostToRefusal`).
  `main_screen_switch` ignores a full table of pending syncs: with 129 clients a switch can leave the new
  focus waiting for ever (`LostWakeUps.WakeUpLostToFullTable`). Requests served while the virtual terminal is
  switched away are dropped (`LostWakeUps.WakeUpLostWhileInactive`) and made good at the first input event
  after the return, unless a device cannot be flushed then: `update_state` gives the resynchronisation up
  (`LostWakeUps.WakeUpLostToFlush`). No run at a site ever loses a wake-up if and only if the screen is a
  whole number of grid cells wide, the server never holds more than 128 clients (removed ones count until the
  next update), and the terminal is not switched away where flushes can fail (`LostWakeUps.WakeUpsAreSafeIff`).
  Foreign clients do not change that while the server runs; their damage can end it, see below.
- The 16-bit row arithmetic is exact if and only if the byte offset and the byte length of the span are
  below 65536 (`BlitExact.SpanIsExactIff`). At 32 bits the span is measured as empty if and only if it is a
  multiple of 16384 columns (`BlitExact.SpanIsEmptyIff`). The 16-pixel build then copies nothing and reports
  success (`BlitExact.WideRowCopiesNothing`); in the 32-pixel build the assembly loop runs through 2^32
  blocks (`BlitExact.WideRowRunsAway`).
- The server checks damage against the screen, not against the sprite's memory. For any rectangle, depth and
  buffers the copy stays in memory if and only if the row it ends on does (`BlitExact.CopyIsSafeIff`, on the
  screen `BlitExact.StaysInsideSpriteIff`). Accepted reports for which it does not: a rectangle below a small
  sprite (`Damage.AcceptedOutsideSprite`), and the whole of a sprite registered with fewer bits per pixel than
  the screen has, which the copy does not take into account (`Conversation.ShallowSpriteStrays`).
- The assembly copy moves the measured span if and only if the screen has 32 bits per pixel and the span is
  not empty (`BlitExact.MovedIff`).
- A screen switch and a vblank that stays in memory always show the new sprite, and a vblank after all drawing
  is reported always shows the focused one, if and only if the screen is a whole number of grid cells wide
  (`Display.SwitchShowsIff`, `Display.VblankShowsIff`).
- `server_addclient` keeps the registry consistent if and only if nothing fails once the client is on the
  pending list (`Registry.Server.Admit`); over any series of other events it stays so, and memory that was
  given back is never held again (`Registry.Server.Serve`).
- `fdpoll_handler_remove` counts before it searches; the counter is behind by exactly the number of mistaken
  removals, and the last handlers may become impossible to remove (`PollRegistry.CounterLag`,
  `PollRegistry.LastHandlerStuck`).
- The multi-touch consumer looks at event codes and not at event types (`Evdev.TakenByKindIff`). A report
  still due when a batch ends is not sent: the client is sent every report if and only if no batch ends with
  one due, which the events alone decide (`Surface.NothingIsLostIff`, `Surface.DueIsPending`). The reports
  lost are as many as the batches that do (`Surface.LossesAreCounted`), and none do when every batch ends
  outside a multi-touch run (`Surface.BatchesThatEndOutside`).
- `get_mode_idx` finds the largest mode if and only if one usable mode is largest in both dimensions
  (`Modes.LargestIsChosenIff`); otherwise the order of the list decides (`Modes.OrderMatters`).

## Model

| member | source | states |
|---|---|---|
| `Wire.TypeLen` | platform/linux/messages.c:56-77 | every known message is of even length and fits the 64-byte maximum, header included |
| `Wire.LengthsAreSizes` | spr16.h:134-192 | the length of each message type is the size of its C structure, member by member with natural alignment and padding, and no other type has one |
| `Wire.MsgAtEncoded` | platform/linux/messages.c:79-102 | a message written anywhere in a byte string is read back at its position, whatever surrounds it |
| `Wire.DecodeEncodeAll` | platform/linux/messages.c:79-102 | a stream of whole messages has exactly one reading, the messages written |
| `Wire.Decode` | platform/linux/messages.c:56-77 | whatever decodes re-encodes to the same bytes |
| `Wire.ScanFrom` | platform/linux/messages.c:104-129 | on arbitrary bytes the scan ends, reads no type past byte 960, and either fails or yields an even end in 960..1023 with a last message that starts inside the buffer |
| `Wire.Socket.Read` | platform/linux/messages.c:163-175 | a read takes the smaller of what is asked and what is queued, from the front |
| `Wire.FindFragment` | platform/linux/messages.c:104-129 | the loop computes exactly that scan |
| `Wire.ReassembleFragment` | platform/linux/messages.c:104-161 | on success the buffer holds the first 960 bytes followed by exactly the missing ones; every error exit is accounted for, and the one-byte-fragment exit is never taken |
| `Wire.ReadSpec` | platform/linux/messages.c:163-186 | a read splits the queue in two without losing or reordering a byte, and hands over 6 to 1023 bytes |
| `Wire.ReadMsgs` | platform/linux/messages.c:163-186 | the two-read procedure on the global buffer realises that split, and its failures |
| `Link.DispatchEncoded` | platform/linux/server.c:957-1015 | on whole messages the dispatch loop hands over each message in order until the handler refuses one |
| `Link.DispatchAnyBytes` | platform/linux/server.c:965-979 | on arbitrary bytes: what was handed over spells the leading bytes; success leaves at most four bytes; failure is a refusal or bytes that hold no known whole message |
| `Link.Dispatch` | platform/linux/client.c:395-451 | the loop with its cursor is the dispatch function |
| `Link.ScanEncoded` | platform/linux/messages.c:104-129 | the scan of a full buffer taken from a stream of whole messages ends on a message boundary |
| `Link.ReadTakesWholeMessages` | platform/linux/messages.c:104-186 | wherever the 960-byte cut falls, a read takes a run of whole messages and leaves whole messages: all there are below 960 bytes, otherwise up to the end of the message the cut falls in |
| `Link.RunsAreLossless` | platform/linux/messages.c:79-186 | over every interleaving of writes and polls: what the handler was given, followed by the decoding of the queued bytes, is exactly what the events wrote; the connection dies only at the first message the handler refuses, all before it having been accepted |
| `Link.PollKeeps` | platform/linux/server.c:1042-1057 | one poll makes progress and keeps the stream lossless |
| `Link.PollsDeliver` | platform/linux/client.c:453-494 | once writing stops, an accepting reader receives everything within one poll per message |
| `Link.SentIsHandled` | platform/linux/client.c:453-494 | after any run, polling an accepting reader once for each message written gives it exactly the messages written, in order, and leaves nothing queued |
| `Link.Endpoint.OnReadable` | platform/linux/client.c:453-494 | read then dispatch, on the real buffer, is one step of those runs |
| `Blit.XmmCopy` | platform/x86.s:88-123 | the body-first loop copies exactly 128 bytes per block and nothing else, a zero count standing for 2^32 blocks |
| `Blit.BlockCopy` | platform/linux/fb.c:105-131 | the loop of block copies moves exactly that many blocks and nothing else |
| `Blit.CopyRowLoop` | platform/linux/fb.c:105-131 | the row loop performs the copy row by row, inside both buffers, with the assembly routine or with `memcpy` |
| `Blit.CopyToFb` | platform/linux/fb.c:63-135 | with every 16-bit truncation of the code and either copy routine: it succeeds exactly when the measured span is whole blocks, then performs the copy of what the routine moves, otherwise changes nothing |
| `BlitExact.SmallestCover` | platform/linux/fb.c:83-104 | the copied columns are the smallest grid-aligned range around the damaged ones |
| `BlitExact.SpanIsExactIff` | platform/linux/fb.c:75-104 | the 16-bit span is the intended one if and only if its offset and length fit 16 bits |
| `BlitExact.SpanIsEmptyIff` | platform/linux/fb.c:75-104 | at 32 bits the span is measured as zero bytes if and only if it is a multiple of 16384 columns |
| `BlitExact.SpanOfNarrow` | platform/linux/fb.c:75-104 | on narrow rows the span is the grid range, inside the screen row |
| `BlitExact.WideRowCopiesNothing` | platform/linux/fb.c:75-104 | with 16-pixel blocks a 16384-pixel row at 32 bits is measured as zero bytes and not refused |
| `BlitExact.WideRowRunsAway` | platform/x86.s:88-123 | with 32-pixel blocks the same row is not refused and its block count is zero: every row moves 2^32 blocks of 128 bytes, and only buffers that long hold the copy |
| `BlitExact.MovedIff` | platform/x86.s:88-123 | the assembly routine, called with the computed block count, moves exactly the measured span if and only if the depth is 32 bits and the span is not zero |
| `BlitExact.RefusedIff` | platform/linux/fb.c:99-104 | a rectangle is refused if and only if it reaches into an incomplete last cell |
| `BlitExact.HalfCellModesRefuseFullWidth` | platform/linux/fb.c:99-104 | with 32-pixel blocks and a width that is an odd multiple of 16, full-width damage is refused |
| `BlitExact.InsideSpriteIsSafe` | platform/linux/fb.c:105-131 | a rectangle inside a sprite of whole cells is never refused and stays inside both buffers |
| `BlitExact.StaysInsideSpriteIff` | platform/linux/server.c:688-696 | for a rectangle checked against the screen only and a sprite memory of any size, at any depth registered, the copy stays inside both buffers if and only if the end of its last row lies inside the sprite memory |
| `BlitExact.CopyIsSafeIff` | platform/linux/fb.c:99-131 | for every rectangle, geometry and pair of buffers: the copy is refused or stays inside both buffers if and only if its last row ends inside both |
| `BlitExact.CopiedByte` | platform/linux/fb.c:105-131 | every byte of the span of every copied row equals the sprite byte at the same row and position, across the two pitches |
| `BlitExact.UntouchedByte` | platform/linux/fb.c:105-131 | every other byte is unchanged |
| `BlitExact.CopyIsExact` | platform/linux/fb.c:63-135 | pixel by pixel: the sprite's value inside the grid rectangle, the old value outside |
| `BlitExact.PaddingUntouched` | platform/linux/fb.c:105-131 | row padding survives |
| `Damage.AccumulateDmg` | platform/linux/server.c:643-662 | the in-place update of the 32-slot array is append, then joining with the last slot |
| `Damage.SlotsAre` | platform/linux/server.c:643-662 | after any series of reports the first 31 slots are the first 31 reports and the last is the bounding box of all the others |
| `Damage.HullIsLeast` | platform/linux/server.c:643-662 | what the last slot holds is the bounding box: a region encloses it if and only if it encloses every rectangle joined there |
| `Damage.HullIsAttained` | platform/linux/server.c:643-662 | each of its four bounds is that of one of those rectangles |
| `Damage.AcceptedIff` | platform/linux/server.c:688-696 | the check of a report in pixels: the rectangle has some, and all of them are on the screen |
| `Damage.DamageIsCovered` | platform/linux/server.c:643-662 | every requested pixel lies in a slot, and every slot is ordered and on the screen |
| `Damage.AccumulateCovers` | platform/linux/server.c:643-710 | one more report uncovers nothing and covers its own rectangle |
| `Damage.AcceptedOutsideSprite` | platform/linux/server.c:681-710 | a rectangle that passes the screen check, is not refused and stays in the framebuffer, but reads beyond a 32 by 32 sprite |
| `Damage.SyncDmgToFb` | platform/linux/fb.c:137-156 | all slots are copied in order and then cleared; at the first refused copy the slots stay, earlier copies having been made |
| `Display.CopySlotsPixel` | platform/linux/fb.c:137-156 | after any number of slot copies, up to the first that is refused, a pixel has the sprite's value or is as it was; when none is refused it has the sprite's value if a slot covers it; success means that none was refused |
| `Display.StepKeeps` | platform/linux/server.c:681-720 | for sprites of any size and depth and any damage the server accepts, reported before or after connecting, refused copies included, every event keeps: a pixel that differs from what the focused sprite's memory holds for it was drawn and not reported, or lies in a pending slot |
| `Display.RunsAreExplained` | platform/linux/fb.c:198-212 | that holds in every reachable state once the focused client has been synchronised whole |
| `Display.VblankShowsReported` | platform/linux/fb.c:198-212 | with all drawing reported, one vblank that refuses no slot makes every screen pixel equal the one in the focused sprite's memory |
| `Display.VblankShowsIff` | platform/linux/fb.c:99-104 | over all runs, a vblank after everything was reported, whose copies stay in memory, shows the focused sprite, if and only if the screen width is a multiple of the grid |
| `Display.SwitchThenVblank` | platform/linux/server.c:807-893 | after a screen switch, one vblank that stays in memory and refuses no slot shows the new sprite over its whole rectangle, whatever was pending |
| `Display.SwitchShowsIff` | platform/linux/server.c:857-893 | over all runs, a screen switch and one vblank whose copies stay in memory show the new sprite, if and only if the screen width is a multiple of the grid |
| `Display.OrderIs` | platform/linux/server.c:857-893 | a new sprite goes last, a removed one leaves the order of the others, a switch turns the list by one, nothing else moves a sprite, and only drawing changes a memory, and only its own |
| `Display.ReportPends` | platform/linux/server.c:681-720 | a report of any client keeps what awaited a copy and adds its rectangle, the full one the whole focused sprite |
| `Display.VblankIs` | platform/linux/fb.c:137-156 | a vblank that refuses nothing shows every pixel that awaited a copy and empties the slots |
| `Display.DrawnIsShown` | platform/linux/fb.c:198-212 | what the focused client draws and reports is on the screen after the next vblank that refuses nothing |
| `Display.CopiedIff` | platform/linux/fb.c:99-131 | on a screen of whole cells no accepted slot is refused, and for a sprite of any depth its copy stays in both buffers if and only if the end of its last row lies inside the sprite memory |
| `Display.TidyRunsCopy` | platform/linux/fb.c:137-156 | on such a screen, in every run whose sprites have the depth of the screen and whole cells and whose damage lies inside them, every slot of every client, bounding boxes included, is copied inside both buffers and none is refused |
| `Display.TidySwitchShows` | platform/linux/server.c:807-893 | after such a run a screen switch and one vblank stay in memory and show the new sprite, whatever was pending |
| `Handshake.DeedIsSpent` | platform/linux/server.c:304-340 | each milestone of the handshake uses itself up and nothing brings it back |
| `Handshake.HandshakeIsMonotone` | platform/linux/server.c:430-511 | against any client, message order and kernel answers: registered, descriptor sent and connected each at most once, the latter two only after registration |
| `Handshake.HandshakeCompletesIff` | platform/linux/server.c:430-511 | with good answers from the kernel the three-message handshake runs to the connection for every size from 1 by 1 to that of the screen and every depth from 8 bits to that of the screen, and does not begin for any other |
| `Handshake.RegistrationIff` | platform/linux/server.c:430-511 | a new record takes the size and depth asked for and is offered its descriptor exactly when they fit and the kernel agrees; otherwise it is refused, not registered and not connected |
| `Handshake.SyncIff` | platform/linux/server.c:681-720 | the damage of an accepted rectangle is recorded even if the flags are refused, flags only accumulate, and the client is listed exactly when some flag is set |
| `Handshake.SyncsAre` | platform/linux/server.c:643-720 | after any series of accepted reports the slots are those of their rectangles, and a vblank is asked for if and only if one of them ever asked |
| `Handshake.OtherMessages` | platform/linux/server.c:957-1015 | a request for the server information is answered; a complaint or an unknown type is refused; none changes the record |
| `Conversation.ServeFresh` | platform/linux/server.c:430-511 | a first message of a library client, registration or not, accepted or refused, keeps the joint invariant of client and server (the descriptor byte and RECV_FD are never accompanied, nothing is lost, sizes agree) |
| `Conversation.ServeOffered` | platform/linux/server.c:323-340 | a library client's request for the descriptor, or any other message in its place, keeps the joint invariant of client and server |
| `Conversation.ServeLater` | platform/linux/server.c:957-1015 | every message a library client sends after the descriptor was sent keeps the joint invariant of client and server |
| `Conversation.ServePeer` | platform/linux/server.c:957-1015 | any message of any client, foreign ones included, in any order, keeps the server's own record sound: at most 32 slots, all on the screen, and coherent handshake flags and sizes unless the client is removed |
| `Conversation.DispatchKeeps` | platform/linux/client.c:241-294 | every message the client dispatches keeps the joint invariant of client and server and takes exactly one message off what it has not seen |
| `Conversation.DrainKeeps` | platform/linux/client.c:185-205 | the drain of recv_fd finds nothing to discard, and asks for the descriptor |
| `Conversation.AwaitKeeps` | platform/linux/client.c:205-239 | the next thing the waiting client receives is the descriptor byte; mapped or not, the joint invariant of client and server is kept |
| `Conversation.StartKeeps` | platform/linux/client.c:120-148 | a handshake started at any time, any number of times, with any size, keeps the joint invariant of client and server |
| `Conversation.RequestSyncKeeps` | platform/linux/client.c:296-317 | a sync request with any region and flags keeps the joint invariant of client and server |
| `Conversation.RequestIsQueued` | platform/linux/client.c:296-317 | a connected library client can always report: its message goes to the end of the channel as it is, and it waits if it asked for a vblank |
| `Conversation.DispatchMeans` | platform/linux/client.c:241-294 | an acknowledgement ends the wait, a fatal refusal stops the client, another refusal does not |
| `Conversation.FailureIsReported` | platform/linux/client.c:205-239 | a client that cannot map the descriptor, or waits for it in vain, stops without a mapping and complains |
| `Conversation.ComplaintIsRefused` | platform/linux/server.c:304-340 | the server refuses the complaint and leaves the record as it is |
| `Conversation.FullscreenKeeps` | platform/linux/server.c:807-827 | the server's own report for a connected client is always accepted and asks for a vblank |
| `Conversation.FlushKeeps` | platform/linux/fb.c:198-212 | the vblank branch keeps the joint invariant of client and server, whether it acknowledges or, after a refused copy, does not |
| `Conversation.NeverRefused` | platform/linux/fb.c:99-104 | on a screen of whole cells no pending damage of any client is ever refused |
| `Conversation.StraysIff` | platform/linux/fb.c:105-131 | on such a screen the copies of the pending slots of any client leave the memory it registered if and only if the last row of some slot ends beyond it |
| `Conversation.TidyNeverStrays` | platform/linux/fb.c:105-131 | with a sprite of the depth of the screen, of whole cells, and damage inside it, no copy leaves its memory |
| `Conversation.ShallowSpriteStrays` | platform/linux/server.c:449-458 | a sprite of the size of the screen registered at 8 bits on a 32-bit screen is accepted, and so is its full report, whose copy reads beyond its memory |
| `Conversation.DescriptorIsSafe` | platform/linux/client.c:170-239 | for a library client the descriptor byte travels alone, nothing is lost or misread, and once connected it maps exactly the registered size |
| `Conversation.ServeStarves` | platform/linux/server.c:681-720 | serving a message can leave a waiting client with nothing in flight only by putting its request on record |
| `Session.ServeSound` | platform/linux/server.c:957-1015 | serving a message that does not get its client removed keeps every screen, sync-list and conversation invariant of the whole server |
| `Session.RemoveSound` | platform/linux/server.c:132-169 | a removal, which resynchronises the client then focused, keeps every invariant of the whole server and loses no wake-up |
| `Session.UpdateKeeps` | platform/linux/server.c:752-781 | emptying the sync list, requesting vblanks and freeing removed clients keeps the invariant and loses no wake-up |
| `Session.VblankKeeps` | platform/linux/fb.c:158-230 | a vblank callback, which serves several events with at most one acknowledgement, keeps the invariant and loses no wake-up |
| `Session.SwitchKeeps` | platform/linux/server.c:857-893 | a screen switch keeps the invariant, the new focus being put on record unless the table of pending syncs is full |
| `Session.InputKeeps` | platform/linux/input.c:215-228 | `update_state` at an input event, whether the flush of the devices succeeds or fails, keeps the invariant |
| `Session.NextKeeps` | main.c:123-128 | every step of the server and of every client, library or foreign, with any number of clients, failing device flushes and terminal switches, keeps the whole invariant |
| `Session.NoLostWakeUp` | platform/linux/fb.c:255-275 | on a screen of whole cells, with never more than 128 clients, foreign ones among them, and no resynchronisation given up while one is due: in every reachable state a waiting focused library client has its request in its channel or on record, a vblank pending, or an acknowledgement on the way, or requests were dropped while inactive and a resync is due |
| `Session.OwedIsDue` | platform/linux/input.c:215-228 | as long as no device flush fails when dropped requests are to be made good, the server is inactive or will resynchronise at the next input event whenever it has dropped some |
| `Session.NeverMissed` | platform/linux/server.c:807-827 | when the server never holds more than 128 clients, no run reaches a fullscreen report that finds the table full |
| `Session.FocusCycles` | platform/linux/server.c:857-893 | over any run, k switches focus the screen k places down the list and keep the order of the others |
| `Session.ActiveOwesNothing` | platform/linux/fb.c:255-262 | a server never deactivated drops nothing, so the last alternative does not occur |
| `Session.WakeUpIsDelivered` | platform/linux/server.c:752-781 | in any such state of an active server that has nothing to make good, where the focused client waits with nothing in flight and the copies of its damage stay in its memory, one update and one vblank callback put the acknowledgement in its channel without leaving that memory |
| `LostWakeUps.WakeUpLostWhileInactive` | platform/linux/vt.c:40-63 | a request served while inactive is dropped: a run in which the waiting client has nothing in flight until the resync |
| `LostWakeUps.WakeUpLostToFlush` | platform/linux/input.c:215-228 | with one client, a run in which the terminal is switched away and back and the first device flush fails: the server is active, no resync is due, and nothing will wake the client |
| `LostWakeUps.WakeUpLostToRefusal` | platform/linux/fb.c:198-212 | on any screen of incomplete cells there is a run after which nothing will wake the client |
| `LostWakeUps.WakeUpLostToFullTable` | platform/linux/server.c:664-679 | with 129 clients there is a run in which the table fills up in one round, the screen switch finds no entry for the waiting client, and nothing will wake it |
| `LostWakeUps.AcceptsBound` | platform/linux/server.c:260-302 | over every run the server holds at most as many clients as it accepted: no other step adds one |
| `LostWakeUps.WakeUpsAreSafeIff` | platform/linux/fb.c:99-104 | no run at a site loses a wake-up if and only if the screen width is a multiple of the grid, the clients held at a time are at most 128, and the terminal is never switched away or no device flush ever fails |
| `LostWakeUps.Undisturbed` | platform/linux/input.c:215-228 | a run without a switch of the terminal, or without a failed flush, never gives up a resync that is due |
| `LostWakeUps.JoiningAt` | platform/linux/client.c:120-239 | from any reachable state, a library client that starts with any size the screen holds ends up connected, with its screen last and a mapping of that size, and no other client is affected |
| `Effects.OthersUntouched` | platform/linux/server.c:1017-1056 | a step leaves every conversation as it was but that of the client it is about and, where it sends or reports something, of the focused one |
| `Effects.ServeEffect` | platform/linux/server.c:957-1056 | a served message is taken off the channel, the record and the answer are those of its handler, and the client is removed exactly when it is refused or its sync finds no room |
| `Effects.RegistrationServed` | platform/linux/server.c:430-511 | in any reachable state, a registration that fits is taken with its size and depth and answered with RECV_FD; any other gets its sender removed, never connected |
| `Effects.AcceptEffect` | platform/linux/server.c:260-302 | a new client is greeted and on no screen, and a foreign one may send anything |
| `Effects.DropEffect` | platform/linux/server.c:132-169 | a removed client is off the screens, the others keep their order, and it is told if it was connected |
| `Effects.UpdateEffect` | platform/linux/server.c:752-781 | the end of a round frees the removed clients, touches no other, and asks for exactly one vblank per listed client that asked for one |
| `Effects.VblankEffect` | platform/linux/fb.c:158-230 | a callback uses up its events, clears the damage of the focused client and sends it one acknowledgement, unless a copy was refused |
| `Effects.SwitchEffect` | platform/linux/server.c:857-893 | the client that was next is focused, has its whole sprite awaiting a copy with a vblank asked for, and is told to reset its input |
| `Effects.InputEffect` | platform/linux/input.c:215-228 | an input event reaches the focused client, after the reset and the full report that are due when input was muted |
| `Effects.FirstInputResets` | platform/linux/vt.c:98-110 | input is muted at the start: the first event resets the connected client before it is forwarded and has it reported whole |
| `Effects.SignalEffect` | platform/linux/vt.c:40-63 | the signals of a terminal switch change the two flags they are for |
| `Effects.MainLoopActs` | platform/linux/client.c:395-451 | a library client reads any run of its queue in order and without loss, and registers with any size the screen holds and no other |
| `Effects.HandshakeActs` | platform/linux/client.c:185-239 | in the handshake it asks once nothing is queued, and takes the descriptor byte when it comes |
| `Effects.OneFrame` | platform/linux/client.c:296-317 | from a report with a vblank request, over serving, update, callback and dispatch, to the acknowledgement: the client waited with exactly its rectangle awaiting the copy, and then everything is as before |
| `Effects.Frames` | platform/linux/client.c:296-317 | any series of frames of a client completes one after the other |
| `Effects.FirstClientShows` | platform/linux/client.c:120-317 | on a fresh server a library client of any size connects and completes any series of frames, its mapping being of its size throughout |
| `Effects.RemovedIsTold` | platform/linux/client.c:241-294 | a connected client that is removed stops at the next message it reads |
| `Session.HandshakeIsSafe` | platform/linux/client.c:185-239 | for every library client in every reachable state, whatever foreign clients do beside it: descriptor byte alone, nothing lost, buffer never misread, mapping of the registered size |
| `Session.SyncListHasRoom` | platform/linux/server.c:664-679 | the sync list is duplicate-free, names only clients not freed, never exceeds 128, and while there are at most 128 clients has an entry for each |
| `Lists.WithoutAt` | platform/fdpoll-handler.c:152-187 | a removal takes out one descriptor and keeps the order of the rest |
| `PollRegistry.CounterLag` | platform/fdpoll-handler.c:152-187 | over every run descriptors are distinct and the counter is behind the list by exactly the number of mistaken removals |
| `PollRegistry.RoomFor` | platform/fdpoll-handler.c:90-150 | of n descriptors added in turn, the first min(n, max, 2048) are registered, the last first |
| `PollRegistry.LastHandlerStuck` | platform/fdpoll-handler.c:158-163 | after one mistaken removal a registered descriptor can no longer be removed |
| `PollRegistry.Handler.FindNode` | platform/fdpoll-handler.c:62-73 | found if and only if registered |
| `PollRegistry.Handler.Add` | platform/fdpoll-handler.c:90-150 | adds at the head exactly when there is room and the descriptor is new |
| `PollRegistry.Handler.Remove` | platform/fdpoll-handler.c:152-187 | the trailing-pointer removal is the specified removal, the counter going down either way |
| `ScreenList.ScreenNode.AddClient` | screen.c:28-35 | a screen takes a client only when it is empty |
| `ScreenList.ScreenNode.FindClient` | screen.c:43-54 | found if and only if a member has the socket |
| `ScreenList.ScreenNode.RemoveClient` | screen.c:56-71 | exactly the member with the socket is unlinked, order kept |
| `Registry.Server.RemovePending` | platform/linux/server.c:62-77 | exactly the pending client with the socket is unlinked, order kept |
| `Registry.Server.GetClient` | platform/linux/server.c:79-101 | a client is found if and only if it is on a screen or pending |
| `Registry.Server.FreeClient` | platform/linux/server.c:103-130 | a client enters the free list once, and only when its poll handler went |
| `Registry.Server.RemoveClient` | platform/linux/server.c:132-169 | exactly the client with the socket leaves its screen, which goes with it, or the pending list, and joins the free list; the order of the rest is kept; after a screen went, the client then focused has been reported whole; all lists and tables stay consistent |
| `Registry.Server.ConnectClient` | platform/linux/server.c:171-206 | a pending client, and no other, moves to a new screen at the end of the list and is marked connected |
| `Registry.Server.Promote` | platform/linux/server.c:171-206 | connecting a pending client keeps the whole registry consistent: lists, screens, sync table, free list, poll handlers and callback records |
| `Registry.Server.AddRecord` | platform/linux/server.c:228-238 | a callback record is added at the head |
| `Registry.Server.RemoveRecord` | platform/linux/server.c:240-258 | the client's record, and only it, is unlinked |
| `Registry.Server.AddClient` | platform/linux/server.c:260-302 | a new client gets on the pending list exactly when its socket is unknown, its memory was allocated and the greeting was sent; it gets its callback record and poll handler exactly when those succeed too; the lists stay consistent if and only if they do or it never got on the list |
| `Registry.Server.Admit` | platform/linux/server.c:260-302 | for every answer of the allocations, the greeting and the poller: accepting a client keeps the registry consistent, one callback record for each live client, if and only if nothing fails after it was put on the pending list |
| `Registry.Server.Dismiss` | platform/linux/server.c:1017-1056 | the error exit of a callback removes the client and its record, and no other |
| `Registry.Server.Serve` | platform/linux/server.c:752-781 | over any series of connections, messages, hang-ups, screen switches, resynchronisations and updates, in any order: the registry stays consistent, each live client has its callback record, memory given back is never held again, and the pending, screen and free lists are exactly those that the events and their verdicts lead to |
| `Registry.Server.OnReadable` | platform/linux/server.c:1017-1056 | a message of a known client removes it if and only if its handler refuses the message or its sync finds no room; otherwise ESTABLISHED, and nothing else, moves it to a screen |
| `Registry.Server.OnAccept` | platform/linux/server.c:260-302 | a connection is admitted exactly when its socket is unknown and not awaiting release and the kernel and the poller agree |
| `Registry.Server.NoneDangle` | platform/linux/server.c:722-750 | in a consistent registry no list, table or callback record mentions a client whose memory was given back |
| `Registry.Server.AddSyncClient` | platform/linux/server.c:664-679 | the non-null entries stay a duplicate-free prefix and `syncing` marks exactly them |
| `Registry.Server.ServerSync` | platform/linux/server.c:681-720 | the in-place handler changes the record as the specified one does, and the sync table with it |
| `Registry.Server.SyncFullscreen` | platform/linux/server.c:807-827 | the focused client, if any, gets a report of its whole sprite |
| `Registry.EntireIsWhole` | platform/linux/server.c:807-827 | the region reported is the whole sprite, for every size a sprite can have |
| `Registry.Server.RunSyncs` | platform/linux/server.c:752-775 | the loop empties the table, clears every mark, and requests one vblank per client that asked for one, when active |
| `Registry.Server.FreeList` | platform/linux/server.c:722-750 | memory is given back only for clients that no list and no table mentions |
| `Registry.Server.Update` | platform/linux/server.c:752-781 | no client is freed while it is in the sync table, because the table is emptied first; the callback records stay those of the live clients |
| `Registry.Server.RotateScreens` | platform/linux/server.c:864-878 | the pointer surgery is a left rotation by one |
| `Registry.Server.SwitchScreen` | platform/linux/server.c:857-893 | a switch turns the screens by one, reports the new focus whole when there are two or more, and keeps the registry and the callback records consistent |
| `Lists.SwitchingCycles` | platform/linux/server.c:864-878 | after k switches screen k is focused; as many switches as screens restore the list |
| `Registry.Server.RegisterSprite` | platform/linux/server.c:430-511 | the handler in memory is the specified one, and maps exactly width times height times bytes per pixel |
| `Registry.Server.ServeAck` | platform/linux/server.c:304-340 | acknowledgements change the record as specified, ESTABLISHED puts the client on a screen, and the callback records stay consistent |
| `Keys.DownIffLastForwarded` | platform/linux/input.c:345-372 | a key is down if and only if its last forwarded event since the flush was a press or a repeat |
| `Keys.ReleasesFollowPresses` | platform/linux/input.c:356-367 | every forwarded release or repeat concerns a key the events forwarded before it left down |
| `Keys.ForwardedIff` | platform/linux/input.c:345-372 | of the events on a valid key, a press is always forwarded, a release or a repeat exactly when the last event forwarded for the key left it down, and no other; events on other keys are not |
| `Keys.OneBit` | platform/linux/input.c:175-192 | setting or clearing one bit of one long leaves every other bit of the array alone |
| `Keys.Device.BitCheck` | platform/linux/input.c:183-188 | out-of-range bits read as clear |
| `Keys.Device.SetInputMsg` | platform/linux/input.c:345-372 | the bitmap changes as the set does, and the event is forwarded exactly when accepted |
| `Keys.Device.Reset` | platform/linux/input.c:194-213 | a flush leaves no key down |
| `Keys.Play` | platform/linux/input.c:345-372 | any series of events and flushes on a new bitmap yields that set and those forwarded events |
| `Surface.Step` | platform/linux/input.c:779-937 | the active slot stays in -1..63, and a report is due only for a slot with a finger |
| `Surface.ReportsInRange` | platform/linux/input.c:727-737 | over every stream and for every extent the device set-up assigns, reports name one of 64 slots, and position and magnitude lie between zero and the extents they carry (at least 1 for the magnitude) |
| `Reports.ClampLaws` | platform/linux/input.c:727-737 | the reported coordinate: ends give zero and the span, steps are kept, outside values give the nearer end, and the two directions of an axis add up to the span |
| `Reports.ClampIsOffset` | platform/linux/input.c:727-737 | it is the distance of the nearest value in range from the end that the inversion selects |
| `Reports.ContactsAre` | platform/linux/input.c:779-937 | after every stream the position and magnitude of each slot and the extents are those that the last events addressed to it give |
| `Reports.ReportsAre` | platform/linux/input.c:757-941 | over every stream the reports sent are exactly those the events call for, in order, each with the position, magnitude and extents that the events give its slot |
| `Surface.SlotsAreIndependent` | platform/linux/input.c:757-941 | over every stream, the contact and the reports of a slot are those of a one-slot machine fed with what was addressed to it |
| `Surface.ConsumedIff` | platform/linux/input.c:779-937 | a run begins with an absolute-axis event of a multi-touch code and goes on through those codes and SYN_MT_REPORT, of whatever type |
| `Surface.NothingStale` | platform/linux/input.c:782-803 | when no batch ends with a report due, the last report for every slot is current whenever no multi-touch run is open |
| `Surface.NothingIsLostIff` | platform/linux/input.c:937-941 | the reports sent are those of a consumer that also sends what is due at the end of a batch, if and only if no batch ends with a report due, as read off the events |
| `Surface.DueIsPending` | platform/linux/input.c:779-937 | the flag for a report to be sent is set exactly when the events say something new about a finger that no slot change, lift or end has followed |
| `Surface.LossesAreCounted` | platform/linux/input.c:757-941 | the two consumers agree on all contacts, and the number of reports lost is the number of batches that end with one due |
| `Surface.BatchesThatEndOutside` | platform/linux/input.c:923-941 | when every batch ends outside a multi-touch run, which the event codes alone decide, no report is lost |
| `Surface.BatchEndDropsReport` | platform/linux/input.c:937-941 | a batch that ends inside a run loses the report that was due |
| `Evdev.Touchpad.SetId` | platform/linux/input.c:739-746 | one identifier is stored when the slot exists |
| `Evdev.Touchpad.Turn` | platform/linux/input.c:782-937 | one turn of the loop on the five arrays is one step of the machine, every access in range |
| `Evdev.Touchpad.Consume` | platform/linux/input.c:757-941 | the consumer stops at the first other event, rewinds the cursor onto the event before it, and leaves the device as the steps do |
| `Evdev.Transceive` | platform/linux/input.c:991-1048 | every event of a batch, up to an early return, is handled exactly once and in order, and the nested loops are the one-pass machine |
| `Evdev.TakenByKindIff` | platform/linux/input.c:779-785 | the consumer takes exactly the multi-touch events if and only if none is followed directly by a look-alike of another type |
| `Evdev.KeyTakenForSlot` | platform/linux/input.c:785-803 | a press of the V key right after a multi-touch event is taken for a change of slot |
| `Clock.ElapsedIsFloor` | platform/linux/input.c:296-311 | for ordered timestamps the result is the number of whole microseconds modulo 2^32, exact if and only if that fits |
| `Clock.Stamp.Subtract` | platform/linux/input.c:314-328 | refused above one second or at second zero; otherwise moves back by exactly the amount and stays normal |
| `Clock.SubtractThenElapsed` | platform/linux/input.c:331-340 | moving a stamp back lengthens every later measurement by exactly that much |
| `Modes.GetModeIdx` | platform/linux/drm.c:617-658 | -1 exactly when no mode is within the requested size, zero requesting nothing, with a width divisible by 16; otherwise the index of one that is |
| `Modes.LargestIsChosenIff` | platform/linux/drm.c:630-651 | the choice is largest in both dimensions if and only if some usable mode is, and then the first with the closest refresh rate |
| `Modes.ChosenIff` | platform/linux/drm.c:630-651 | whatever the list, the choice is the one usable mode that beats the choice among those before it and is beaten by none after it |
| `Modes.NothingBetterFollows` | platform/linux/drm.c:630-651 | no usable mode after the choice is wider or higher, or as large and closer in refresh rate |
| `Modes.OrderMatters` | platform/linux/drm.c:638-643 | otherwise a narrower mode can replace a wider one |
| `Modes.ChosenModeCopies` | platform/linux/drm.c:633-634 | with 16-pixel blocks no rectangle is refused in the chosen mode |
| `Modes.ChosenModeMayRefuse` | platform/linux/drm.c:633-634 | with 32-pixel blocks a chosen mode may refuse its right edge |

## Left out

- Session.NoLostWakeUp: assumes that sends, vblank requests and the delivery of their events succeed, and that the signals of a terminal switch arrive between steps; memory allocation on ESTABLISHED succeeds there (its failure is in `Registry.Server.ServeAck`).
- Session.NextKeeps: every connection is accepted (the 2048 poll handlers that bound it are in `PollRegistry`), and a removal finds its poll handler, as in `Registry.Server.Retire`. A vblank whose copies leave the sprite's memory may end the program; the model marks it (`strayed`) and goes on, so what it does from then on need not happen.
- Registry.Server.Serve: a run has no connection that fails after the client is on the pending list (`Registry.Server.Admit` says what that does), none whose descriptor is still open, and no message while 2048 removed clients await their release.
- Registry.Server.Retire: a removal finds the free list not full and the epoll call succeeding; a hang-up that queues an already removed descriptor again is not modelled.
- Display.StepKeeps: a vblank whose copies would leave the sprite's memory ends the run; `Display.CopiedIff` says when they would.
- Blit.XmmCopy: the non-temporal stores are ordinary ones, and the alignment the instructions require is not modelled.
- Clock.ElapsedIsFloor: second counts are unbounded, with the final conversion to 32 bits; a signed overflow of the intermediate product is taken to wrap.
- Surface.Step: coordinates and axis ranges are unbounded integers.
- Keys.Device.SetInputMsg: hotkeys that are kept from the client after they were accepted (`preempt_keycodes`) and the key translation tables.
- System calls, interrupted calls, sockets beyond a FIFO of whole writes, memory-file seals, DRM and terminal ioctls, logging.
- SPRITE_FLAG_DIRECT_SHM registration, page flips, and the ASYNC branch, which copies only while the server is inactive.
- Handlers of the two programs other than the ones named enter the framing model as an arbitrary function of the messages so far.
- Floating-point pointer acceleration, trackpad taps, and what the kernel's own multi-touch protocol prescribes.
- Example programs, the Xorg driver, option parsing.
