# AetherShell: verified models

AetherShell is a set of desktop programs for Wayland: a screen recorder, a lock screen, an idle
daemon, a notification server and a desktop with icons. This project models the parts of them that
are algorithms or protocols, and proves what those promise. Each module follows one component:

| file | component |
|---|---|
| BufferPool.dfy, FramePipeline.dfy, FrameReach.dfy, FrameProgress.dfy, FrameShutdown.dfy | the recorder's growing ring of frame buffers, as a class over an array, the two threads that share it, as interleaved atomic steps, that they never block each other, and how they end |
| WriterTimestamps.dfy, WriterLock.dfy, AudioChunks.dfy | the recorder's time stamps, the two-lock entry to the muxer, the audio re-chunker |
| Utf8.dfy, PasswordBuffer.dfy | the lock screen's UTF-8 routines and in-place password buffer |
| CommPipe.dfy | the length-prefixed pipe between the lock screen and its password checker |
| TimerLoop.dfy, LockScreen.dfy, LockObject.dfy | the re-entrant timer list, the whole lock screen as functions on its state, and the object that updates the fields, proved to compute those functions |
| LockEffects.dfy | what every key, callback and reply does, in plain terms, and that only a success unlocks |
| LockMarks.dfy, LockRace.dfy | that what the lock screen shows or holds goes away by itself, and when it can have two requests unanswered |
| Images.dfy, BoxBlur.dfy, DualKawase.dfy, Premultiply.dfy | pixel buffers with strides, and the three image filters |
| KawasePixels.dfy | which pixels make up each pixel of the background blur |
| IconGrid.dfy | placement of desktop icons |
| IdleDaemon.dfy, IdleArgs.dfy, IdleSeconds.dfy | the idle daemon's timeouts, its command line, and the numbers in it |
| NotifyServer.dfy | the notification server's list, history and timers |
| FileTree.dfy | recursive copy and move |
| Bytes.dfy, Collections.dfy | byte and word types, two facts of integer division, optional values, sequences without repetition |

Where the source updates objects in place, classes do so here: `Pool`, `Password`, `WriteEnd`,
`ReadEnd`, `Screen`, `Reader`, `Daemon`, `Options`, `Server` and `FileSystem`, and methods over byte arrays for
the filters. Their contracts equate the new state with a function of the old one; the properties are
then proved about the functions, for single steps and for whole runs.

## What turned out otherwise

Some promises one would expect do not hold of the code. They are stated as they are, with inputs on which
they fail and the exact condition under which they hold:

- The capture loop need not end after a termination signal: its wait for a free buffer does not look
  at `exit_main_loop` (`FrameShutdown.HangIsReachable`; exactly when: `FrameShutdown.HangsIfAtRisk`;
  when it is already lost: `FrameShutdown.EndsUnlessDoomed`).
- The lock screen can have two unanswered requests, because an idle timer may overwrite VALIDATING
  (`LockRace.TwoOutstanding`; exactly when: `LockRace.SubmitBesideAnother`).
- A request whose write fails half way spoils the stream: some later password is misread
  (`CommPipe.PartialWriteSpoils`; exactly when: `CommPipe.CleanStream`). As long as nothing is sent after
  it, the child still reads exactly the requests before it (`CommPipe.ParseFrames`), and a later password
  may happen to be read as itself.
- The window of the lock screen's blur is not symmetric: it reaches from x-r to x+r+1.
- A four-byte character with bit 21 set gets a leading byte that announces another length
  (`Utf8.LeadAnnouncesSize`); no code point of RFC 3629 has it. The table's row for six bytes repeats a
  case of the row for five and is dead (`Utf8.NeverSix`).
- Copying an empty directory onto a file succeeds and leaves the file
  (`FileTree.EmptyOntoFile`; exactly when: `FileTree.OverlaidUnlessClash`).
- Moving a directory onto itself does not leave it as it is. It succeeds exactly if there is no file in
  the directory, and then deletes it with all directories in it; otherwise it fails, and every file stays
  (`FileTree.FileSystem.RecursiveCopyMove`).
- An empty word passes as the number 0 in a timeout clause, which then never fires, and 4294967297 passes
  as 1 (`IdleSeconds.Misread`; exactly which words are accepted, and which give the timeout they ask for:
  `IdleSeconds.SecondsAccepts`, `IdleSeconds.TimeoutMeant`).

The comment at aetherlock/src/cairo.c:92 says that the shift form rounds correctly for products up to
0xfe02; `Premultiply.ShiftedIsRounded` proves it.

## Model

| member | source | states |
|---|---|---|
| BufferPool.Pool.constructor | aether-recorder/src/buffer-pool.hpp:31-36 | Two released, unavailable buffers, both indices at the first |
| BufferPool.Pool.Capture | aether-recorder/src/buffer-pool.hpp:55-59 | The buffer in the capture slot of the ring, which is unchanged |
| BufferPool.Pool.Encode | aether-recorder/src/buffer-pool.hpp:61-65 | The buffer in the encode slot of the ring, which is unchanged |
| BufferPool.Pool.Grow | aether-recorder/src/buffer-pool.hpp:75-85 | The shifting loop inserts one new buffer behind the capture slot, moves the encode index with its buffer, and loses or copies no other buffer |
| BufferPool.Pool.NextCapture | aether-recorder/src/buffer-pool.hpp:69-88 | The filled buffer ends unreleased and available, and the ring advances; it grows exactly when the next buffer is not released and there is room |
| BufferPool.Pool.NextEncode | aether-recorder/src/buffer-pool.hpp:92-99 | The encoded buffer ends released and unavailable, and the encode index moves on by one |
| BufferPool.GrowthAppends | aether-recorder/src/buffer-pool.hpp:75-86 | Growing a ring whose other buffers are all pending puts the new buffer last in encoding order, just before the oldest pending one, and keeps the order of the rest |
| BufferPool.GrowthHolds | aether-recorder/src/buffer-pool.hpp:75-86 | Wherever the indices stand, growth moves the encode index with its buffer and captures into the new one |
| BufferPool.AdvanceKeepsOrder | aether-recorder/src/buffer-pool.hpp:74-87 | Without growth the capture slot moves one place along an unchanged encoding order |
| BufferPool.EncodeRotates | aether-recorder/src/buffer-pool.hpp:97-98 | Advancing the encode index moves the oldest buffer to the end of the encoding order |
| FramePipeline.StepPreserves | aether-recorder/src/main.cpp:617-736 | Every atomic step of either thread (lock, flag store, unlocked test, copy) keeps the invariant of ring, flags, contents and history |
| FramePipeline.RunInv | aether-recorder/src/main.cpp:1535-1567 | The invariant holds at every moment of every interleaving from the start |
| FramePipeline.EveryRunSafe | aether-recorder/src/main.cpp:634-727 | In every run, across any number of growths: the encoder has taken a prefix of the captured frames and is at most the capacity behind; slots stay distinct and in range; no buffer is released and available at once; the buffer being read for encoding holds the next frame due and the capturer writes elsewhere; encode() gives the same buffer from the wait on |
| FramePipeline.QuiescentFlags | aether-recorder/src/buffer-pool.hpp:71-97 | Between two calls the available buffers are exactly the cyclic run from the encode slot up to the capture slot, and all others are released |
| FramePipeline.RefinesFifo | aether-recorder/src/main.cpp:637-726 | Every step is a step of a FIFO queue bounded by the capacity, and what write_loop takes is the queue's oldest frame |
| FrameProgress.NeverBlocked | aether-recorder/src/main.cpp:617-736 | From every reachable state, unless told to exit or after the encoder has given up, some continuation takes exactly one more frame, the oldest not taken yet: the threads never block each other |
| FrameShutdown.HangsIfAtRisk | aether-recorder/src/main.cpp:1535-1541 | Once asked to exit, the capture loop can be kept from ever ending if and only if it waits for a buffer still in use while the encoder is not in next_encode; otherwise it can still end whatever happens |
| FrameShutdown.EndsUnlessDoomed | aether-recorder/src/main.cpp:1535-1541 | When it is already lost: no continuation leaves the loop if and only if the capturer waits for a buffer still in use and the encoder is past its last release |
| FrameShutdown.HangIsReachable | aether-recorder/src/main.cpp:1535-1541 | For every capacity a run with exit_main_loop set reaches a state from which the capture loop cannot end |
| WriterTimestamps.WriteLoop | aether-recorder/src/main.cpp:674-718 | The loop's drop flag and stamps are the outcome function of the frame's place in the run |
| WriterTimestamps.DroppedPrefix | aether-recorder/src/main.cpp:679-682 | A frame is dropped if and only if no frame up to it could be placed on the audio clock; dropped frames form a prefix and without audio there are none |
| WriterTimestamps.StampExact | aether-recorder/src/main.cpp:676-690 | If presentation times never decrease, a stamp is the exact distance from the origin: the unsigned subtraction never wraps |
| WriterTimestamps.StampsKeepDistance | aether-recorder/src/main.cpp:674-690 | After a stamped frame every later frame is stamped, stamps never decrease, and differ by exactly what presentation times differ by |
| WriterTimestamps.UsecOrder | aether-recorder/src/main.cpp:573-576 | The conversion to microseconds keeps the order of presentation times |
| WriterTimestamps.UsecFloor | aether-recorder/src/main.cpp:573-576 | The conversion yields the whole microseconds of a time |
| WriterLock.StepKeeps | aether-recorder/src/frame-writer.cpp:1000-1013 | Every lock and unlock keeps each mutex held by exactly the thread standing inside it |
| WriterLock.MutualExclusion | aether-recorder/src/frame-writer.cpp:1000-1013 | For any number of threads and every run, at most one is in the write section |
| WriterLock.NotOvertaken | aether-recorder/src/frame-writer.cpp:997-1005 | While a thread holds pending_mutex and waits, no thread takes fmt_mutex or pending_mutex before it |
| WriterLock.OneLeaves | aether-recorder/src/frame-writer.cpp:997-1013 | Meanwhile at most one thread leaves the section, so the next entry is the waiting thread's |
| WriterLock.NoDeadlock | aether-recorder/src/frame-writer.cpp:1002-1013 | While some thread is not outside, some thread that is not can move |
| WriterLock.EveryoneWrites | aether-recorder/src/frame-writer.cpp:997-1013 | At every moment of every run every thread can be the one that writes after at most eight steps |
| AudioChunks.Reader.CopyIn | aether-recorder/src/pipewire.cpp:103-104 | The chunk is appended to the leftover |
| AudioChunks.Reader.DropFrame | aether-recorder/src/pipewire.cpp:107-109 | The bytes behind the first frame move to the front unchanged |
| AudioChunks.Reader.Feed | aether-recorder/src/pipewire.cpp:103-110 | After one chunk the frames emitted so far and the leftover are the frames and rest of all bytes received |
| AudioChunks.Reader.OnStreamProcess | aether-recorder/src/pipewire.cpp:101-114 | So does the whole callback, for all chunks if each finds room; it copies past the buffer exactly if one does not; the first non-zero time is kept |
| AudioChunks.CutUnique | aether-recorder/src/pipewire.cpp:105-110 | Frames of exactly the frame size plus a shorter leftover that concatenate to the input are the only such cut: nothing lost, doubled or reordered |
| AudioChunks.CutResumes | aether-recorder/src/pipewire.cpp:101-111 | Cutting continues from the leftover, so how the stream was split into chunks does not matter |
| AudioChunks.SmallChunksFit | aether-recorder/src/pipewire.cpp:60 | Chunks of at most three frames always fit a buffer of four |
| AudioChunks.AlwaysFits | aether-recorder/src/pipewire.cpp:60-104 | A chunk size fits behind every possible leftover if and only if it is at most three frames and one byte |
| TimerLoop.ExpiryExact | aetherlock/src/loop.c:151-174 | The expiry of a timer is exactly the delay after the time read, in normal form |
| TimerLoop.BeforeIsOrder | aetherlock/src/loop.c:117-119 | The comparison of the pass is the order of the times |
| TimerLoop.ArmKeeps | aetherlock/src/loop.c:151-174 | Adding a timer and storing its handle keeps: every handle is null or the one unremoved timer with its callback, cancelled timers never fire, none fires twice |
| TimerLoop.CancelKeeps | aetherlock/src/password.c:71-76 | So does cancelling |
| TimerLoop.ScheduleKeeps | aetherlock/src/password.c:63-69 | So does rescheduling, also from inside a callback |
| TimerLoop.FreeKeeps | aetherlock/src/loop.c:111-124 | So does unlinking a removed or fired timer |
| LockScreen.KeyEventKeeps | aetherlock/src/seat.c:70-98 | So does every key event, with the repeat timer of its seat |
| LockScreen.CallKeeps | aetherlock/src/password.c:49-108 | So does every timer callback, although callbacks add and cancel timers |
| LockScreen.VisitKeeps | aetherlock/src/loop.c:110-125 | One turn of the loop over the list leaves the rest of the list in place and settles its timer |
| LockScreen.PassKeeps | aetherlock/src/loop.c:105-126 | A pass ends; it runs only expired, unremoved timers that were in the list at its start, each once; every such timer is then gone, fired or cancelled; timers armed meanwhile wait |
| LockScreen.StepTimers | aetherlock/src/loop.c:105-203 | Every event keeps the timer invariant |
| LockScreen.StepTalk | aetherlock/src/main.c:1208-1222 | Every event keeps the protocol with the password checker: VALIDATING implies an outstanding request, exactly one unless an idle timer overwrote the state; failed attempts count the refusals read; while the screen is locked no success was read (the converse is LockEffects.StaysLocked) |
| LockScreen.EveryRun | aetherlock/src/main.c:1208-1222 | Both invariants hold after every sequence of keys, replies, timer passes and clock readings |
| LockScreen.FailuresCounted | aetherlock/src/main.c:1214-1221 | While the screen is locked the failure count equals the number of replies read |
| LockEffects.StaysLocked | aetherlock/src/main.c:1208-1222 | In every run the screen is locked exactly while no reply read was a success |
| LockEffects.OnlySuccessUnlocks | aetherlock/src/main.c:1214-1221 | No event but the reading of a success unlocks the screen, and nothing locks it again |
| LockEffects.ReplyRead | aetherlock/src/main.c:1208-1222 | A refusal leaves the screen locked, counts and shows the failure and takes the mark back 3 seconds later; a success unlocks and changes neither |
| LockEffects.KeyErases | aetherlock/src/password.c:137-217 | Escape, and Control with backspace, c or u, empty what is typed; backspace removes the last character; a modifier changes nothing |
| LockEffects.KeyTypes | aetherlock/src/password.c:137-217 | Any other key appends its character if its UTF-8 bytes, a terminator and a spare byte fit, and does nothing without one |
| LockEffects.KeySilent | aetherlock/src/password.c:137-217 | No key but Enter, or Control with m, d or j, says anything to the password checker |
| LockEffects.KeySubmits | aetherlock/src/password.c:110-129 | Those send exactly what is typed and wipe it, unless a reply is awaited or an empty password is ignored; if the request cannot be written the attempt counts as failed |
| LockEffects.ClearTimers | aetherlock/src/password.c:95-101 | After a key that clears, no wipe is pending and the mark goes away after 1.5 seconds |
| LockEffects.BusyTimers | aetherlock/src/password.c:63-101 | After a key that leaves something typed, it is wiped 10 seconds later and the mark goes away after 1.5 |
| LockEffects.SubmitTimers | aetherlock/src/password.c:110-129 | A submission cancels both, and the mark of one that could not be written goes away after 3 seconds |
| LockEffects.KeyRepeats | aetherlock/src/seat.c:70-98 | A held key repeats after the delay of its seat if that seat repeats, and none does otherwise |
| LockEffects.KeyReleased | aetherlock/src/seat.c:70-98 | Letting a key go ends its repetition, and types, sends and shows nothing |
| LockEffects.SeatDecides | aetherlock/src/seat.c:70-133 | The repetition last set for a seat is that of its keys, and other seats keep theirs |
| LockEffects.ControlDecides | aetherlock/src/seat.c:100-122 | The Control key as last reported decides between clearing and typing |
| LockEffects.PipeDecides | aetherlock/src/password.c:110-129 | A submission reaches the password checker or counts as failed, as writing succeeds |
| LockEffects.AnswerWaits | aetherlock/src/pam.c:109-138 | The checker answers one request at a time and none after a success |
| LockEffects.RepeatCall | aetherlock/src/seat.c:62-68 | A repetition does what pressing the key again does, and the next comes one period later |
| LockEffects.CallbackEffects | aetherlock/src/password.c:49-93 | What every other callback does to the password, the marks and the conversation, and when it comes back |
| LockEffects.StartPending | aetherlock/src/main.c:1558-1691 | Which timers are pending at the start and for how long |
| LockRace.DoubledWhileWaiting | aetherlock/src/password.c:56-61 | While a reply is awaited, another request can go out before it is read if and only if the timer of a failure mark is pending |
| LockRace.SubmitBesideAnother | aetherlock/src/password.c:110-129 | Right after an accepted submission a second request can go out unanswered beside it if and only if auth_idle_timer was pending when it was made, since submit_password does not cancel it |
| LockRace.TwoOutstanding | aetherlock/src/password.c:56-61 | Two requests can be outstanding: a concrete run in which set_auth_idle overwrites VALIDATING |
| LockMarks.AlwaysWatched | aetherlock/src/password.c:49-129 | In every run a typed password, an input mark and a failure mark each have a live pending timer with the callback that ends them |
| LockMarks.LatePassEnds | aetherlock/src/loop.c:105-126 | Once no key repeats, a pass later than the expiry of its timer ends each of them: the password is wiped, the failure mark taken back, and the input mark cleared if no wipe is still to come |
| LockObject.Screen.constructor | aetherlock/src/main.c:1558-1691 | The state at the start: no password, the self-arming timers, nothing outstanding |
| LockObject.Screen.AddTimer | aetherlock/src/loop.c:151-174 | Computes the function Arm on timers and handles |
| LockObject.Screen.RemoveTimer | aetherlock/src/loop.c:194-203 | Marks exactly the timer asked for, if it is in the list |
| LockObject.Screen.CancelTimer | aetherlock/src/password.c:71-108 | Computes Cancel |
| LockObject.Screen.ScheduleTimer | aetherlock/src/password.c:63-101 | Computes Schedule |
| LockObject.Screen.SubmitPassword | aetherlock/src/password.c:110-129 | Computes Submit, clearing the password whether or not the request was written |
| LockObject.Screen.Handle | aetherlock/src/password.c:137-217 | Computes HandleKey for every key |
| LockObject.Screen.KeyboardKey | aetherlock/src/seat.c:70-98 | Computes KeyEvent |
| LockObject.Screen.RunCallback | aetherlock/src/password.c:49-93 | Computes Call for every callback |
| LockObject.Screen.PollTimers | aetherlock/src/loop.c:105-126 | The loop over the linked list, with its saved next link, computes Dispatch over the list at its start although callbacks change the list |
| LockObject.Screen.ReadReply | aetherlock/src/main.c:1208-1222 | Computes ReplyIn, whose meaning is LockEffects.ReplyRead |
| PasswordBuffer.Password.constructor | aetherlock/src/main.c:1558-1564 | An empty password in a zeroed buffer |
| PasswordBuffer.Password.Clear | aetherlock/src/password.c:15-27 | Every byte is zero and nothing is typed |
| PasswordBuffer.Password.Append | aetherlock/src/password.c:38-47 | The bytes stay the terminated UTF-8 encoding of what was typed; a character is dropped exactly when its bytes, a terminator and a spare byte do not fit |
| PasswordBuffer.Password.Backspace | aetherlock/src/password.c:29-36 | Exactly the last accepted character is removed, whatever stale bytes lie beyond |
| PasswordBuffer.Password.TextIsFirstString | aetherlock/src/password.c:29-47 | The first zero byte is the one at len |
| Utf8.WriteEncoded | aetherlock/src/unicode.c:29-54 | Writes the encoding of the character at its place and no other byte |
| Utf8.EncodeLayout | aetherlock/src/unicode.c:29-54 | The bytes are those of section 3 of RFC 3629: a leading mark with the high bits, then six-bit groups marked 10 |
| Utf8.MeasureLast | aetherlock/src/unicode.c:6-16 | Finds the terminator and walks back to the start of the last character |
| Utf8.LastSizeOfEncoding | aetherlock/src/unicode.c:6-27 | Whatever precedes it, the size of the last encoded character is recovered |
| Utf8.NoZeroByte | aetherlock/src/unicode.c:29-54 | Non-zero characters encode to non-zero bytes |
| Utf8.LeadAnnouncesSize | aetherlock/src/unicode.c:18-79 | The leading byte announces the true length if and only if bit 21 of a four-byte character is clear |
| Utf8.NeverSix | aetherlock/src/unicode.c:57-79 | The six-byte row of the table is never the answer, and exactly the continuation bytes and 0xFC to 0xFF have none |
| Utf8.DecodeEncodeAll | aetherlock/src/unicode.c:29-54 | A string of characters decodes, as section 3 of RFC 3629 reads it, to exactly those characters |
| CommPipe.WriteEnd.WriteFull | aetherlock/src/comm.c:37-53 | For every way the kernel splits or interrupts the writes: a prefix is written, all of it exactly on success, and it stops short only where the kernel fails or takes no more |
| CommPipe.WriteEnd.WriteRequest | aetherlock/src/comm.c:113-133 | The pipe gains a prefix of the request's frame, all of it exactly on success; it fails only if the kernel does within the calls the bytes written can take, or takes no more; the password is wiped in any case |
| CommPipe.ReadEnd.ReadFull | aetherlock/src/comm.c:14-35 | For every way the reads are split: exactly the next bytes on success, end of file only at a boundary, an error only where the kernel fails or the stream ends inside |
| CommPipe.ReadEnd.ReadRequest | aetherlock/src/comm.c:55-80 | The next request of the stream, ended by its zero byte; it fails only where the kernel does, the stream ends inside a request, or an assertion fails, which the stream decides; it waits only for bytes to come |
| CommPipe.ReadEnd.Serve | aetherlock/src/pam.c:109-138 | The k-th reply is the verdict on the k-th request, refusals only before the last; all whole requests are answered, or those up to the first success, unless the kernel fails or stops delivering first |
| CommPipe.SizeRoundTrip | aetherlock/src/comm.c:113-122 | The eight size bytes give the size back |
| CommPipe.FrameLayout | aetherlock/src/comm.c:113-133 | What is written for a password: its size with the terminator in eight bytes, least significant first, its bytes, the terminator |
| CommPipe.ParseFrames | aetherlock/src/comm.c:55-80 | Requests written one after another, the last perhaps cut short, are read as the same passwords in the same order |
| CommPipe.CleanStream | aetherlock/src/comm.c:113-133 | Whatever password is sent next, the child reads exactly the successful requests and then that one, if and only if no failed attempt left a byte in the pipe |
| CommPipe.PartialWriteSpoils | aetherlock/src/comm.c:113-133 | After a failed attempt that left bytes some later password is misread: of any two whose sizes differ in the low byte, at most one could be read back with the earlier requests |
| CommPipe.Converse | aetherlock/src/comm.c:55-133 | Both ends: after any requests of which none failed half way, a child that reads what was written trips no assertion and answers the successful passwords in order; however reads are split and interrupted, it answers all of them or those up to the first success, provided no read fails before the bytes written must have arrived |
| CommPipe.NeverTrapped | aetherlock/src/comm.c:55-80 | If only the last request can be cut short, the reader's two assertions never fail |
| Images.PixelAt | aetherlock/src/main.c:60-71 | Pixel (x, y) is the four bytes at y*stride + 4x, inside the buffer |
| BoxBlur.BlurLine | aetherlock/src/main.c:56-78 | The running sums of one line write, at each pixel, the floored mean of the clipped window from x-r to x+r+1, never dividing by zero |
| BoxBlur.BlurAllRows | aetherlock/src/main.c:54-79 | All rows, into the second buffer; bytes outside the image are kept |
| BoxBlur.BlurAllColumns | aetherlock/src/main.c:80-105 | All columns, back into the image; bytes outside the image are kept |
| BoxBlur.BlurIsMean | aetherlock/src/main.c:56-78 | Each colour of an output is the floored mean of the samples from x-r to x+r+1 that exist, of which there is one, and the output is opaque |
| BoxBlur.ApplyBlur | aetherlock/src/main.c:41-109 | For every size up to the limit of cairo, stride and radius the image becomes its windowed mean along the rows, then the columns, three times over, or stays as it is for radius 0 or less |
| BoxBlur.BlurWithin | aetherlock/src/main.c:51-108 | After any number of passes each colour channel stays between the input's least and greatest value |
| BoxBlur.ConstantFixed | aetherlock/src/main.c:51-108 | An opaque image of one colour is not changed |
| DualKawase.Downsample | aetheridle/main.c:1238-1283 | The halved picture is the mean of five clamped taps at every pixel, which KawasePixels.DownIsMean names; no access leaves a buffer |
| DualKawase.Blend | aetheridle/main.c:1351-1358 | The four floating weights at fractions 0 and 1/2 are exact quarters |
| DualKawase.Split | aetheridle/main.c:1310-1319 | Floor and fraction of a half-integer coordinate |
| DualKawase.AddSamples | aetheridle/main.c:1306-1369 | The eight weighted real sums are exactly a quarter of integer sums |
| DualKawase.Store | aetheridle/main.c:1371-1377 | The clamp never acts: the byte stored is the integer quotient by 48 |
| DualKawase.Upsample | aetheridle/main.c:1285-1380 | The doubled picture is the integer form floor(S/48) at every pixel, S as in KawasePixels.UpIsMean; no access leaves a buffer |
| DualKawase.ApplyDualKawaseBlur | aetheridle/main.c:1382-1444 | For all sizes of at least one pixel the result has the size of the input and is the composed pyramid |
| KawasePixels.TapIsClamped | aetheridle/main.c:1238-1249 | A tap outside the picture reads the nearest pixel of its border |
| KawasePixels.DownIsMean | aetheridle/main.c:1238-1283 | A halved pixel is a fifth of the pixel at twice its place and the four diagonal ones at the distance, each coordinate explicit |
| KawasePixels.UpIsMean | aetheridle/main.c:1285-1380 | A doubled pixel is a twelfth of bilinear samples around half its place: four along the axes once and four diagonal ones twice |
| KawasePixels.KawaseIsPyramid | aetheridle/main.c:1382-1444 | The blur is two halvings and two doublings at distance 1, no side below one pixel |
| KawasePixels.KawaseKeepsRows | aetheridle/main.c:1382-1444 | A picture that varies only from left to right stays so |
| KawasePixels.KawaseKeepsColumns | aetheridle/main.c:1382-1444 | A picture that varies only from top to bottom stays so |
| DualKawase.KawaseWithin | aetheridle/main.c:1396-1423 | Each channel stays between the input's least and greatest value |
| DualKawase.KawaseConstant | aetheridle/main.c:1396-1423 | A picture of one colour is not changed |
| Premultiply.ShiftedIsRounded | aetherlock/src/cairo.c:80-96 | The addition and two shifts round z/255 correctly on the whole range up to 0xfe02 |
| Premultiply.PremulMeaning | aetherlock/src/cairo.c:93-96 | No integer is nearer to color*alpha/255, the result never exceeds alpha, and alpha 255 keeps the colour |
| Premultiply.Convert | aetherlock/src/cairo.c:97-120 | For every size and pair of strides the surface holds the converted pixels, in cairo's byte order, and its padding is kept |
| Premultiply.ConvertedIsPremultiplied | aetherlock/src/cairo.c:104-108 | Each channel of the result is its colour times alpha over 255, rounded, hence at most alpha; alphas are kept and opaque pixels only change byte order |
| IconGrid.MeetsAny | desktop/src/icons.c:421-427 | Whether a candidate overlaps an occupied rectangle |
| IconGrid.MeetsIsShared | desktop/src/icons.c:421-427 | Rectangles count as overlapping exactly if they share a pixel |
| IconGrid.GridInNumbers | desktop/src/icons.c:403-436 | Cells of 120 by 128 lie 130 and 138 apart from (20, 20), or (20, 40) below a panel; a row after the first is in use if and only if it ends above the lower edge, or the panel there |
| IconGrid.Advance | desktop/src/icons.c:431-435 | The cursor moves to the next cell in column-major order |
| IconGrid.NextFree | desktop/src/icons.c:417-436 | The search ends on the first free cell of the grid |
| IconGrid.PlaceAuto | desktop/src/icons.c:403-449 | Every automatic icon gets the first free cell as if the scan started over, and the k-th has index at most 4m+k with m saved icons; what that means on the screen is stated at Refresh |
| IconGrid.PlaceManual | desktop/src/icons.c:371-401 | Icons with a usable saved position get it, clamped between the panels; the others wait in order |
| IconGrid.Refresh | desktop/src/icons.c:371-449 | Every file gets a position. Saved ones are kept between the panels; the others lie on the grid, on the screen in every row but the first, overlap no other icon, follow the order of the files column by column, and leave out no usable cell that was free; all of it in numbers |
| IconGrid.AtMostFourCells | desktop/src/icons.c:419-424 | An icon rectangle anywhere overlaps at most four cells |
| IconGrid.FullPrefixBound | desktop/src/icons.c:417-436 | A full prefix of the grid has at most 4m+k cells, which ends the search |
| IconGrid.AutoOverlapsNothing | desktop/src/icons.c:417-447 | No automatic icon overlaps another icon, and their cells strictly increase |
| IdleDaemon.Daemon.RegisterTimeout | aetheridle/main.c:624-644 | Destroys the held object, then creates one exactly for a timeout that is not negative |
| IdleDaemon.Daemon.EnableTimeouts | aetheridle/main.c:646-663 | The loop over the commands computes the step function |
| IdleDaemon.Daemon.DisableTimeouts | aetheridle/main.c:666-681 | So does this loop; a configured idle hint is cleared |
| IdleDaemon.Daemon.OnIdled | aetheridle/main.c:683-695 | Sets the flag and runs the hint or the command, which CallsConfigured names |
| IdleDaemon.Daemon.OnResumed | aetheridle/main.c:697-712 | The resumed event computes its step: the object is no longer idle, then handle_resumed |
| IdleDaemon.Daemon.Resume | aetheridle/main.c:697-712 | handle_resumed computes its function: flag, registration, hint or resume command, which CallsConfigured names |
| IdleDaemon.Daemon.OnUsr1 | aetheridle/main.c:954-958 | Registers every command at timeout 0, inhibitors ignored |
| IdleDaemon.Daemon.OnTerminate | aetheridle/main.c:944-952 | Resumes every waiting command, then stops |
| IdleDaemon.EventEffects | aetheridle/main.c:624-680 | Enabling registers every command at its timeout with inhibitors respected unless already enabled or inhibited; disabling leaves no live object; SIGUSR1 registers every command at 0 |
| IdleDaemon.StepKeeps | aetheridle/main.c:617-712 | Every event keeps: live objects are exactly those held by commands, one each, registered at registered_timeout; an object the compositor holds idle has a waiting command; calls pair up |
| IdleDaemon.EveryRun | aetheridle/main.c:617-712 | The invariant holds throughout every run without reload |
| IdleDaemon.BackAtTimeout | aetheridle/main.c:697-703 | After a resume from the compositor a command is registered at its configured timeout, or not at all if that is negative; it keeps its object if it was there already, and the others keep theirs |
| IdleDaemon.ExitResumesAll | aetheridle/main.c:941-952 | A run ended by SIGINT or SIGTERM resumes every command after its last idle, each resume follows an unresumed idle, and the idle hint is off; what each call runs is CallsConfigured |
| IdleDaemon.CallsConfigured | aetheridle/main.c:683-712 | In every run every call sets the idle hint if its command is an idlehint, and otherwise runs the command on idle and the resume command on resume, or nothing where there is none |
| IdleDaemon.EventCalls | aetheridle/main.c:646-712 | One event calls only the handler of the command whose object the compositor names; the idle hint follows the idlehint commands, and disabling takes it back |
| IdleArgs.Options.BuildTimeoutCmd | aetheridle/main.c:729-751 | Milliseconds of a seconds word: the strtoul value as an int times 1000, or -1 if it is not positive |
| IdleArgs.Options.ParseTimeout | aetheridle/main.c:753-774 | Consumes three words, or five with resume, and prepends the command; reads nothing past the end |
| IdleArgs.Options.ParseIdleHint | aetheridle/main.c:856-879 | Consumes two words; a second idlehint exits |
| IdleArgs.Options.ParseArgs | aetheridle/main.c:912-939 | The loop ends, reads nothing past argc, and computes Parse |
| IdleArgs.AcceptsExactly | aetheridle/main.c:912-939 | The parser accepts a word list if and only if it is a list of well-formed clauses, and builds exactly what they mean |
| IdleArgs.Unambiguous | aetheridle/main.c:766-771 | No word list reads as two clause lists: the optional resume causes no ambiguity |
| IdleSeconds.ReadsBack | aetheridle/main.c:729-737 | A number printed in decimal is read back, for every unsigned long |
| IdleSeconds.ValueIsDecimal | aetheridle/main.c:729-732 | The value of digits counts ten times as much with every digit behind them |
| IdleSeconds.SpelledMeans | aetheridle/main.c:729-737 | Spelled as a number: white space of the C locale, an optional sign, one or more decimal digits |
| IdleSeconds.SecondsAccepts | aetheridle/main.c:729-737 | A word is accepted as a number of seconds if and only if it is empty or is white space, an optional sign and digits of a value below 2^64 |
| IdleSeconds.SecondsMean | aetheridle/main.c:729-732 | Such a word stands for its signed value cut to an int, and for the value itself if and only if that is an int |
| IdleSeconds.TimeoutMeant | aetheridle/main.c:743-748 | The timeout is the one asked for if and only if a positive number of seconds is an int in milliseconds, and any other is still not positive when cut to 32 bits |
| IdleSeconds.Misread | aetheridle/main.c:729-748 | The empty word passes as 0 and switches the timeout off; numbers that agree modulo 2^32 pass as the same |
| IdleArgs.RoundTrip | aetheridle/main.c:912-939 | Parsing the printed words of any clauses with seconds*1000 in range rebuilds the configuration if there is at most one idlehint, and exits otherwise |
| IdleArgs.WordsSpell | aetheridle/main.c:912-939 | The words of each clause: its keyword, the number and the commands in their places |
| IdleArgs.FirstWord | aetheridle/main.c:753-939 | At a word in a clause's place the parser refuses one it does not know, and exits on a clause that is cut short, not supported, repeated or without a number |
| IdleArgs.Continues | aetheridle/main.c:912-939 | It gets to each such place past the clauses before it, with what they mean |
| IdleArgs.LastClause | aetheridle/main.c:753-879 | Each field of the configuration comes from the last clause of its kind, and the last timeout or idlehint clause comes first with its commands and its milliseconds |
| IdleArgs.TimeoutsReversed | aetheridle/main.c:772 | The timeouts of the result are those of the clauses in reverse order |
| NotifyServer.Server.CreateNotification | osd-notify/src/notify.c:364-455 | Computes Create in all four cases: do not disturb with and without replacing, on screen with and without |
| NotifyServer.Server.CloseNotification | osd-notify/src/notify.c:247-270 | Computes Close |
| NotifyServer.Server.AddToHistory | osd-notify/src/notify.c:88-114 | Prepends, and drops the oldest item past 50; in numbers at CreateRecords |
| NotifyServer.Server.PauseTimeout | osd-notify/src/notify.c:457-463 | Computes Pause |
| NotifyServer.Server.ResumeTimeout | osd-notify/src/notify.c:465-470 | Computes Resume |
| NotifyServer.Server.OnTimeout | osd-notify/src/notify.c:242-245 | Computes Timeout |
| NotifyServer.CreateShows | osd-notify/src/notify.c:364-455 | The request is on screen with a running timer, under the id it names if that is on screen and a new one otherwise, and nothing else changes there; with do-not-disturb nothing on screen changes |
| NotifyServer.CreateRecords | osd-notify/src/notify.c:370-409 | The history shows the newest text: a replaced item in its place; a new one in front of all older ones, of which exactly a 51st is dropped; a request adds one exactly when it replaces nothing |
| NotifyServer.CreatePlaces | osd-notify/src/notify.c:424-454 | A request on screen gets the time it asks for, or 5000 ms if it asks for none, its own timer, and the place of the notification it replaces, or the last |
| NotifyServer.CloseReasons | osd-notify/src/notify.c:242-270 | The signal of a closing carries 1 from a timer, 2 from the user and 3 from a call |
| NotifyServer.CloseRemoves | osd-notify/src/notify.c:247-270 | Closing removes exactly this notification and its timer and signals it once, or does nothing |
| NotifyServer.PauseStops | osd-notify/src/notify.c:457-463 | Pausing stops exactly this timer and leaves the notification on screen |
| NotifyServer.ResumeStarts | osd-notify/src/notify.c:465-470 | Resuming starts a timer exactly for a notification on screen without one |
| NotifyServer.TimeoutKeeps | osd-notify/src/notify.c:242-270 | A live timer always finds its notification on screen, so firing emits exactly one closed signal |
| NotifyServer.CloseKeeps | osd-notify/src/notify.c:247-270 | Closing keeps the invariant |
| NotifyServer.ReplaceKeeps | osd-notify/src/notify.c:393-429 | Replacing a notification on screen keeps it |
| NotifyServer.NewKeeps | osd-notify/src/notify.c:431-454 | Showing a new notification keeps it |
| NotifyServer.SilentKeeps | osd-notify/src/notify.c:369-391 | Do-not-disturb requests keep it |
| NotifyServer.EveryRun | osd-notify/src/notify.c:88-470 | In every run short of 2^32 ids: ids shown split into active and closed, none closed twice; live timers correspond one to one to unpaused active notifications; active ids increase; history has at most 50 items with decreasing ids |
| FileTree.FileSystem.RecursiveCopyMove | desktop/src/filesystem.c:21-76 | Ends for all sources and destinations. Apart ones, path by path: success leaves every file and directory of the source at its place over what was there, failure loses, invents and touches nothing else, and without I/O errors it fails exactly for the four reasons of FeasibleByPath. Into itself: refused. Onto itself: no file changes, and without I/O errors a move of a directory succeeds if and only if there is no file in it, and then all of it is gone. Onto an ancestor of the source: nothing outside changes, every file holds what a file on its way here held, a file vanishes only by being overwritten, a copy removes nothing and arrives completely, and after a move the source is gone |
| FileTree.FileSystem.CopyChildren | desktop/src/filesystem.c:45-63 | The loop over the children, in any enumeration order: handled children are final, the others untouched |
| FileTree.FeasibleByPath | desktop/src/filesystem.c:22-72 | What stops a call: no source, no directory to put it in, a file of the source facing a directory, a directory with something in it facing a file |
| FileTree.OverlaidUnlessClash | desktop/src/filesystem.c:34-72 | A successful call leaves the old tree overlaid by the source, and nothing else changed, if and only if no empty source directory faces a destination file |
| FileTree.EmptyOntoFile | desktop/src/filesystem.c:34-40 | A feasible call in which an empty source directory faces a file |
| FileTree.ClashIsEmpty | desktop/src/filesystem.c:34-40 | Success implies that a source directory facing a file is empty |
| FileTree.DoneKept | desktop/src/filesystem.c:65-72 | A successful copy or move conserves every file of the source |
| FileTree.ChildStep | desktop/src/filesystem.c:45-63 | A child's result composes with those of its siblings |
| FileTree.FailStep | desktop/src/filesystem.c:51-57 | A child's failure still leaves every file of the whole source at its old or its new place |

## Left out

- GTK, Cairo, Pango, Wayland, D-Bus, FFmpeg, PipeWire, PulseAudio, PAM, udev and GBM calls: only the events they deliver are modelled.
- Configuration loaders, key-file setters, CSS and drawing: long, without properties of this kind.
- The descriptor table of loop.c (`loop_add_fd`, `loop_remove_fd`) and the computation of the poll timeout: bookkeeping that would add only easy members.
- Sorting of desktop files (`sort_file_info`): the model starts from the sorted list.
- `parse_args`: its getopt part; the model starts at `optind`. `load_config`, which feeds the same clause parsers line by line, is not part of this model.
- IdleArgs.Options.BuildTimeoutCmd: seconds*1000 outside the range of int is undefined in C; the model lets it wrap around. strtoul is the one of glibc with a 64-bit unsigned long.
- DualKawase.Upsample: floats are modelled as reals; all sums are multiples of 1/4 below 2^12 and exact in a float, and the last division is too coarse to round across an integer.
- BoxBlur.ApplyBlur: sides are at most 32767, the largest that a cairo image surface allows, so the 32-bit sums do not overflow. Byte offsets are unbounded integers: that `y * stride`, computed in an int, overflows for images of 2 GiB and more is not modelled.
- Shifts and masks on words are written as division and remainder by powers of two.
- IconGrid.Refresh: coordinates are unbounded integers.
- LockScreen.EveryRun: timer objects are numbered and never reuse an address; a whole pass reads the clock once, as loop_poll does; whether a request's write succeeds is fixed per event. Surfaces, highlights and the caps-lock display are not modelled.
- LockObject.Screen.SubmitPassword: the password is kept as characters there; the bytes are PasswordBuffer's and the pipe is CommPipe's.
- CommPipe.ReadEnd.Serve: the conversation with PAM is one verdict per password; the fixed size of the child's answer buffer is not modelled.
- CommPipe.WriteEnd.WriteRequest: size_t has eight bytes, least significant first.
- FramePipeline.EveryRunSafe: atomics and mutexes are sequentially consistent; a frame that write_loop drops while waiting for audio counts as taken; dispatch failures of the display are not modelled.
- BufferPool.Pool.NextCapture: the destructor is left out.
- WriterTimestamps.StampExact: the audio time base is assumed to be stored once; readings of it are otherwise arbitrary.
- AudioChunks.Reader.OnStreamProcess: the callback does not check that a chunk finds room; what a copy past the buffer does is not modelled.
- Premultiply.Convert: the branch for pixbufs without alpha and the big-endian branch only reorder bytes.
- IdleDaemon.EveryRun: config reload and exits other than by signal discard pending resumes and are left out, as are logind's sleep and lock signals and inhibitor descriptors. The compositor alternates idled and resumed on one object and sends nothing for destroyed ones.
- NotifyServer.EveryRun: runs that use up all 32-bit ids are excluded; the bus connection and the windows are taken to exist; any user action closes with reason 2. Whether `replaces_id` follows the desktop specification is not stated: the code issues a new id when the old one is not active.
- Window positions of notifications: `notify_ui_reposition` scales the index by the window's own height, and non-overlap is not claimed.
- FileTree.FileSystem.RecursiveCopyMove: symbolic links and special files are left out; an enumeration always lists every child; a file is copied or moved as a whole. When the destination is a proper ancestor of the source, which of several files that land on one path is the last depends on the enumeration and is not stated.
