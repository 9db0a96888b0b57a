# The resumable terminal stream of wsctl, verified

wsctl shares terminal sessions over WebSocket. The bytes of a session's PTY are
numbered from 0; the last of them are kept in a bounded ring; each viewer has a
bounded outbound queue; and a viewer that comes back after a disconnection says
how far it got and is sent the rest. This project models that stream in Dafny,
from the escape-sequence parser up to the whole system of one session and one
command-line viewer, and proves what it promises. Five smaller parts of the
repository are modelled beside it. Nothing here was executed.

Verify with `dafny verify dfyconfig.toml`.

## How it is built

What the program changes in place is a class here (`Scrollback`, `WsClient`,
`TermSession`, `AnsiTracker`, `RecvState`, `CommandBlockParser`, `BlockLog`,
`AuthCache`, `AuditLog`, `IdempotencyStore`). Each method is proved to take the
value of the object to that of a function, and the theorems are about runs of
those functions.

| module | content |
|---|---|
| `Bytes`, `Protocol` | bytes; the v2 frame codecs |
| `Ansi` | the escape-sequence automaton, the streaming tracker, the index scanners |
| `RingSpec`, `RingRuns`, `Retained`, `Replay`, `Scrollback` | the ring, what it keeps, reading it back, and the class |
| `OutboundQueues`, `Fifo`, `ClientSpec`, `Client` | the two queues, one queue, the viewer's outbound state, and the class |
| `ClientRuns`, `Shedding`, `SnapshotGroups`, `GapCoverage`, `Gaps`, `LostRanges` | theorems over every run of a client |
| `SessionSpec`, `Session`, `Screens`, `Reports`, `Viewer`, `Requests` | attach, resync and broadcast; when a screen is taken; what the flag `incomplete` tells; the viewer's receive loop, and when it asks and waits |
| `Lossless`, `Resume`, `Fidelity`, `Holes`, `Repair`, `AfterLosses` | the whole system, without losses, with them, and after them |
| `OscParser`, `OscCuts`, `Marks`, `CommandBlocks` | OSC extraction, marks and command blocks |
| `AuthCache`, `AuditChain`, `Idempotency`, `WinQuote` | the token cache, the audit log, idempotency keys, Windows quoting |

The whole system (`Resume.World`) takes one atomic step at a time, as the
broadcast lock makes it: output, muted output, attach, delivery of one queued
item through the encoder and decoder, disconnection, restart with a new
generation, and other control messages. The server's half is the ring and the
client; the viewer's half is its cursor and everything it has painted. The proof
follows the line of items not yet delivered: each is given the effect it will
have on the screen, and the invariant says that the line as a whole leads to the
end of the stream. Attaching, eviction, losing old control messages and cutting
the connection at any point all preserve it.

## Where the code does less than its comments say

Each of these is proved: as a concrete case, as the exact condition, or as both.

- A viewer's cursor moves by the maximum and does not notice a hole, and the gap
  notice stands behind frames that follow the hole. One shed frame can therefore
  leave a viewer with a byte missing for good (`Holes.ShedBreaksResume`). A screen
  stays exact if and only if the frames that arrive are adjacent
  (`Holes.ExactIffAdjacent`). `Resume.ExactResume` is about runs that lose nothing,
  in which that is so; `AfterLosses.RepairedIsExact` says what restores it.
- A repair also moves the cursor by the maximum. A viewer that attached incompletely
  to a restarted session keeps the cursor of the old generation through the repair,
  and can resume beyond bytes it never got (`Holes.StaleResume`). The repair does its
  work if and only if the cursor is not beyond it (`Repair.RepairDelivered`).
- The flag `incomplete` counts evictions that were reported, and one can go unreported
  (see below). A resume can be announced as whole although a byte of it was shed
  (`Reports.ResumeLosesInSilence`), and a repair as complete although its clear was
  (`Reports.ClearLostInSilence`). `Reports.ResumeFlag` and `Reports.ResyncFlag` say
  exactly when; a cleared attach of a fresh viewer is always told the truth
  (`Reports.RawAttachFlag`), and so is a repair outside an OSC string
  (`Reports.ResyncFlagOutsideOsc`).
- A screen that makes room for itself is queued whole, and the session takes it for
  refused: the count of dropped events has moved, and the raw replay follows
  (`Screens.TakenButNotApplied`, `Screens.OfferIsApplied`). One above the whole budget
  empties the line before it is refused (`Screens.SnapshotIsTaken`).
- After an incomplete repair the viewer waits for another one that it has not asked
  for, with its cursor frozen, until a loss is told or it connects again
  (`Requests.WaitsUnasked`, `Requests.FrozenWhileAwaiting`).
- The drop of live frames runs up to the first frame that ends outside a sequence.
  It can run into a snapshot and take its first chunk (`Holes.TornSnapshot`), exactly
  when `SnapshotGroups.WalksIntoGroup` holds of the queue
  (`SnapshotGroups.DropTearsIffItWalks`).
- The same drop can empty the queue and report that it dropped nothing; the loss is
  then neither counted nor announced by that call (`Shedding.LossInSilence`).
  `Shedding.SilentLoss` says when.
- When it empties the queue, the stream that is left can begin inside a sequence:
  the queue before the eviction tells (`Shedding.CutsInside`), for puts and for
  requests to give up data alike (`Shedding.EveryShedCut`).
- The pending lost range keeps its lower end and overwrites its upper end, so the
  replay of a repair, whose offsets go back, can make it forget losses
  (`LostRanges.ReplayForgetsLosses`); `LostRanges.DropKeepsAccount` says exactly when.
  A range lost while a gap is open also outlives its burst, and is named only if
  something else is lost later (`LostRanges.RangeOutlivesBurst`).
- In an OSC body the tracker reads ESCs in pairs and the index scanners one by one, so
  they part at a BEL behind an odd run of ESCs and at a backslash behind an even one
  (`Ansi.OscEscBelSplitsThem`, `Ansi.TrackerAgreesWithScanner`).
- The ring can begin with orphaned continuation bytes, in three ways: the stream itself
  began so and nothing was evicted (`RingRuns.OrphanFromStart`), the head that an
  eviction left is nothing else (`RingRuns.OrphanAlone`), or the buffer is over its
  budget and no cut would leave anything (`RingRuns.OrphanOverBudget`).
  `RingRuns.OrphanHead` says exactly when.
- An OSC string longer than the buffer is called no command marker, but its tail can be
  read as one: `OscCuts.MarkerFromBody` shows a marker the stream never held, and
  `OscCuts.CutGains` says exactly when. A long read of many short strings loses some
  (`OscCuts.OversizedRead`).
- `633;A` does not close a command as `133;A` does, so an interrupted command's start
  time is carried to the next (`CommandBlocks.StartIsInherited`).
- The audit digest sees times to the microsecond only, and a chain shortened at either
  end verifies (`AuditChain.TimesBelowTheMicrosecond`, `AuditChain.DeletionShows`).
- A request slower than `stale_after` can find that it shares its key
  (`Idempotency.LateRequestShares`), exactly when `Idempotency.ArrivalShares` says. Its
  response can then be stored as the answer of another route
  (`Idempotency.LateResponseStrays`), which `Idempotency.ReplayedIsOwn` excludes when
  every response finds its own row.
- Retention deletes by time and the chain runs by id, so a clock that went back can
  leave a log that does not verify: exactly when a row goes from between two that stay
  (`AuditChain.RetentionShows`).

## Model

| member | source | states |
|---|---|---|
| Resume.ExactResume | src/wsctl/cli/connect.py:217-331 | Over every run of output, muted output, attach, delivery of one item, disconnection at any point, reconnection and restart that loses nothing: when the viewer holds the session's generation, what it has painted since its last clear or snapshot is the slice of the stream ending at its `last_seq`; nothing repeated, nothing skipped, evicted offsets included |
| Resume.HalfPaintedIsRepainted | src/wsctl/core/session.py:711-799 | Over the same runs, a viewer cut off in the middle of a snapshot is never resumed: its offset has left the ring, so the next attach repaints |
| Resume.DrainedIsCurrent | src/wsctl/core/session.py:746-771 | Over the same runs, a viewer whose queues are empty shows a suffix of the stream; if it shows any stream bytes, its `last_seq` is the end of the stream |
| Resume.EveryWorld | src/wsctl/cli/connect.py:217-331 | The invariant behind the three: the items still in line lead the viewer, wherever it stands, exactly to the end of the stream |
| Resume.ResumeLinks | src/wsctl/core/session.py:711-761 | A resume continues exactly where the viewer stopped |
| Resume.RepaintLinks | src/wsctl/core/session.py:722-771 | Without a resume the snapshot, or the clear and the raw replay, replaces the screen whatever it held |
| Holes.ExactIffAdjacent | src/wsctl/cli/connect.py:289-292 | The cursor moves by `max`, with no contiguity check: a screen that shows the stream up to the cursor goes on doing so if and only if every frame begins where the one before it ended |
| Holes.ShedBreaksResume | src/wsctl/server/client.py:258-291 | A run of nine steps of a viewer with a budget of eleven bytes, one frame shed, after which the viewer awaits no repair, its offset is accepted for resume, and a byte is missing from its screen |
| AfterLosses.RepairedIsExact | src/wsctl/core/session.py:801-868 | After any run, whatever it has lost: once a repair has been delivered that is reported complete and can be trusted (see `Repair.TrustedIsComplete`), with nothing lost since it was queued and a cursor not beyond it, the guarantee of exact resume holds again, and over every lossless run from there |
| AfterLosses.EveryHistory | src/wsctl/core/session.py:695-868 | Over every run, with resynchronisations and shedding, the ring, the line of the connection and the generations keep what the repair needs |
| Repair.TrustedIsComplete | src/wsctl/core/session.py:854-859 | A repair reported complete has lost nothing of itself if and only if it is a snapshot, or its clear fits the budget and no put of its replay evicts anything unreported |
| Repair.RepairDelivered | src/wsctl/cli/connect.py:366-375 | The message that ends a repair restores the invariant if and only if a cursor of the session's generation is not beyond the repair |
| Holes.StaleResume | src/wsctl/cli/connect.py:303-375 | A run: a viewer attaches incompletely to a restarted session, is repaired and cut off, and would resume at the cursor of the old generation, which the session accepts, beyond a byte it never got |
| Repair.ResyncJoins | src/wsctl/core/session.py:801-868 | A complete repair ends the line and takes any screen to the end of the stream |
| Fidelity.WireIsTrue | src/wsctl/core/session.py:1105-1125 | Over every run, with resynchronisations and shedding for the session's memory, every binary message of the resumable stream that is sent decodes to exactly the stream's bytes at its offset |
| Fidelity.EveryLineIsFaithful | src/wsctl/core/session.py:1097-1125 | Over the same runs the ring is the window of the stream and every frame ever queued is true to it |
| Lossless.FittingReplay | src/wsctl/core/session.py:746-793 | Let T be 65536, or a smaller positive byte budget. A fresh v2 client whose queue holds one frame more than the ring fills at T bytes a frame, and whose budget holds the ring and eleven bytes, gets the clear, then frames of at most T bytes, all but the last full, that tile the ring with true offsets, then `attached` with `incomplete` false; nothing is dropped |
| Lossless.ReplaySizes | src/wsctl/core/session.py:1525-1537 | For any budget, a replay frame is never longer than 64 KiB nor than a positive budget, and the frames are no more than it takes at that size |
| Lossless.FittingResync | src/wsctl/core/session.py:843-867 | A repair for which any v2 client has that room loses nothing, and is reported incomplete if and only if the viewer's offset has left the ring |
| Lossless.FittingResume | src/wsctl/core/session.py:746-793 | A resume for which there is room sends exactly the stream from the viewer's offset on, without clear or screen, then `attached` with `incomplete` false |
| Screens.SnapshotIsTaken | src/wsctl/server/client.py:356-395 | A screen whose chunks and two messages fit beside all that is queued is queued if and only if the byte budget allows it at all, whatever old output has to go for it: the queue ends with its chunks, which concatenate to it, share one anchor, and of which the last alone carries LAST. If not, the line is emptied and nothing is queued |
| Screens.OfferIsApplied | src/wsctl/core/session.py:737-745 | The session takes a queued screen for the whole answer if and only if it fits beside what is queued, or the whole line ends inside a sequence, goes unreported, and the screen fits alone |
| Screens.TakenButNotApplied | src/wsctl/core/session.py:829-842 | A screen that is queued whole but makes room for itself is followed by the raw replay all the same |
| Screens.FittingScreen | src/wsctl/core/session.py:733-793 | A fresh v2 client within whose bounds the screen lies gets its chunks and `attached` with `snapshot_applied`, and nothing else |
| Session.TermSession.AttachV2 | src/wsctl/core/session.py:695-799 | Closed and full sessions refuse and change nothing; otherwise the client joins and its queues become those of `SessionSpec.AttachV2` (resume, snapshot with fallback, or cleared raw replay, then `attached`) |
| Session.TermSession.Resync | src/wsctl/core/session.py:801-868 | A snapshot, or a cleared raw replay; `incomplete` is raised by a head gone from the ring or an eviction counted since the clear; a closed session refuses |
| Reports.RawAttachFlag | src/wsctl/core/session.py:771-799 | A fresh viewer that attaches to a cleared replay is told `incomplete` if and only if bytes went |
| Reports.ResumeFlag | src/wsctl/core/session.py:771-799 | A viewer that resumes is not told `incomplete` if and only if each piece fits its budget and each put of a piece that finds no room finds only frames ending inside a sequence; the bytes that then went are known beforehand |
| Reports.ResyncFlag | src/wsctl/core/session.py:854-859 | A repair without a snapshot is reported complete if and only if the viewer's head is still in the ring and the same holds of the line after the clear; the bytes that then went since the clear are known beforehand |
| Reports.ResyncFlagOutsideOsc | src/wsctl/core/session.py:854-859 | If the viewer's stream does not stand inside an OSC string and the clear fits the budget, a repair reported complete has lost nothing since the clear |
| SessionSpec.ClearInsideOsc | src/wsctl/core/session.py:845-846 | The clear leaves the parser inside a sequence if and only if it is read inside an OSC string |
| Reports.ReplayReported | src/wsctl/server/client.py:242-256 | A replay moves the counter of events if and only if one of its puts is reported |
| Reports.ClearLostInSilence | src/wsctl/core/session.py:845-859 | A repair that is reported complete although its own replay evicted its clear |
| Reports.ResumeLosesInSilence | src/wsctl/core/session.py:771-793 | A resume that is announced as whole although its first byte was shed, with no gap |
| Session.TermSession.Broadcast | src/wsctl/core/session.py:1097-1133 | The data joins the ring unless muted; every live client is given it under the same offset, with DISPLAY if muted; clients that refuse, and those whose share is known to be revoked, are removed, the latter without the data |
| Session.TermSession.Detach | src/wsctl/core/session.py:881-885 | Removes that client and no other |
| Viewer.RecvState.ReceiveBytes | src/wsctl/cli/connect.py:258-293 | What a binary message does to `last_seq`, `awaiting_snapshot` and the screen; undecodable messages do nothing |
| Viewer.RecvState.ReceiveControl | src/wsctl/cli/connect.py:303-389 | What `attached`, `gap`, `resynced` and `resync-rejected` do to the cursor, and when a repair is requested |
| Viewer.RecvState.Connect | src/wsctl/cli/connect.py:230-238 | The offset sent on attach: the cursor, unless a repair is awaited |
| Requests.RequestsAreCounted | src/wsctl/cli/connect.py:303-389 | Over every list of messages of one connection: a request is outstanding if and only if a loss (a gap, an incomplete `attached`) or a rejection has not been followed by `resynced`; the requests sent are the rejections and the losses heard while none was outstanding |
| Requests.OneRequest | src/wsctl/cli/connect.py:303-361 | Without `resynced` and `resync-rejected`, exactly one request is sent if any loss is told, and none otherwise |
| Requests.AwaitingIsUnsettled | src/wsctl/cli/connect.py:278-375 | The viewer waits if and only if a loss or an incomplete repair, or its state on connecting, has not been settled since by a complete `attached`, a complete `resynced` or the last chunk of a screen |
| Requests.FrozenWhileAwaiting | src/wsctl/cli/connect.py:278-292 | While it waits nothing but these moves its cursor |
| Requests.WaitsUnasked | src/wsctl/cli/connect.py:366-375 | It waits without a request outstanding if and only if nothing of note has been heard since an incomplete repair, or since it connected waiting |
| RingRuns.EveryBuffer | src/wsctl/core/scrollback.py:62-76 | After any sequence of appends and clears: the buffer is `stream[base_seq..end_seq)`, each recorded state is the parser's at its chunk's end, the head is safe to replay from, and the budget is exceeded only by less than the head chunk and only when no clean cut exists |
| RingSpec.AppendKeeps | src/wsctl/core/scrollback.py:184-283 | One append keeps all of that and never moves `base_seq` back |
| RingSpec.ReanchorTracks | src/wsctl/core/scrollback.py:226-250 | Re-anchoring leaves a head that starts outside a sequence or lies wholly in one that has not closed, and skips no offset at which the parser is outside |
| RingSpec.CutTailIsClean | src/wsctl/core/scrollback.py:251-274 | The tail cut lands outside a sequence, at or after the byte that meets the budget, and passes no earlier clean place; it leaves nothing only if there is none |
| RingRuns.PlainWindow | src/wsctl/core/scrollback.py:184-283 | For ASCII without ESC the buffer is exactly the last `min(total, max_bytes)` bytes since the last clear, whatever the read boundaries |
| Retained.EvictIsFirst | src/wsctl/core/scrollback.py:216-228 | Whole chunks go in order up to the first that need not: one goes if and only if the bytes behind it meet the budget, or it begins inside a sequence and is not the last |
| Retained.WantedIsKept | src/wsctl/core/scrollback.py:184-283 | Over every run the ring keeps everything from any place on that lies within the budget, between sequences, at the start of a character, and in a read that began between sequences |
| RingRuns.OrphanHead | src/wsctl/core/scrollback.py:251-299 | After an append the head begins with a UTF-8 continuation byte if and only if it did before the cut and was left as it is: the tail cut would leave nothing, or after an eviction the whole head is continuation bytes, or nothing was evicted (no runs of four in the stream) |
| RingRuns.OrphanFromStart | src/wsctl/core/scrollback.py:251-283 | A buffer whose stream began inside a character |
| RingRuns.OrphanAlone | src/wsctl/core/scrollback.py:275-283 | A buffer that holds only the second byte of a character |
| RingRuns.OrphanOverBudget | src/wsctl/core/scrollback.py:251-274 | A buffer left over its budget whose head begins with the second byte of a character |
| Replay.SinceIsExact | src/wsctl/core/scrollback.py:87-112 | `since` answers exactly for offsets in `[base_seq, end_seq]`, with adjacent non-empty pieces that are the stream from that offset on |
| Replay.ReplayIsWhole | src/wsctl/core/scrollback.py:114-132 | The replay frames tile the stream from `base_seq` to `end_seq` with their true offsets |
| Replay.FramedIsTight | src/wsctl/core/scrollback.py:114-132 | Every frame but the last has exactly the target size: the frame count is as small as the target allows |
| Scrollback.Scrollback.Create | src/wsctl/core/scrollback.py:29-42 | A cap that is not positive is refused; otherwise the buffer is empty |
| Scrollback.Scrollback.Append | src/wsctl/core/scrollback.py:62-76 | The deques after an append are those of `RingSpec.Append`; returns the offset of the first new byte |
| Scrollback.Scrollback.Trim | src/wsctl/core/scrollback.py:184-283 | In place: the state becomes that of `RingSpec.Trim` |
| Scrollback.Scrollback.EvictChunks | src/wsctl/core/scrollback.py:216-228 | Whole-chunk eviction in place, and the parser state after the last chunk removed |
| Scrollback.Scrollback.ReanchorHead | src/wsctl/core/scrollback.py:229-250 | Re-anchoring in place |
| Scrollback.Scrollback.CutHeadTo | src/wsctl/core/scrollback.py:251-283 | Tail cut and realignment in place |
| Scrollback.Scrollback.Clear | src/wsctl/core/scrollback.py:178-182 | Bytes and parser are forgotten, the numbering is not |
| Scrollback.Scrollback.Since | src/wsctl/core/scrollback.py:87-112 | The loop computes `Replay.Since` |
| Scrollback.Scrollback.ReplayFramesWithSeq | src/wsctl/core/scrollback.py:114-132 | The coalescing loops compute `Replay.ReplayFrames` |
| Scrollback.Align | src/wsctl/core/scrollback.py:286-299 | The loop drops at most three leading continuation bytes and stops at the first other byte |
| Ansi.AnsiTracker.Feed | src/wsctl/core/ansi.py:167-243 | Fed anything in any state, the jumping tracker reaches the state of the byte-by-byte automaton |
| Ansi.RunFlatten | src/wsctl/core/ansi.py:167-243 | Reading the pieces of a stream one by one reaches the state of reading the stream, however it is cut |
| Ansi.SequencesAreRead | src/wsctl/core/ansi.py:28-76 | A control sequence (final byte 0x40 to 0x7E), an OSC string ended by BEL or ST, and each two- or three-byte form is read as inside from its first byte to its last, and ends outside |
| Ansi.AnsiTracker.Skip | src/wsctl/core/ansi.py:152-165 | Returns the rest of the buffer from the first boundary on |
| Ansi.SkipIsLongest | src/wsctl/core/ansi.py:152-165 | That rest is the longest suffix starting outside a sequence, or empty |
| Ansi.ScanSequence | src/wsctl/core/ansi.py:62-76 | The index scanners compute `SequenceEnd` |
| Ansi.SequenceEndIsFirst | src/wsctl/core/ansi.py:26-76 | `sequence_end` is the first index at which the scanners' own automaton is outside; none if it never is |
| Ansi.EndsInsideEscape | src/wsctl/core/ansi.py:79-95 | The stateless scan says whether that automaton ends inside |
| Ansi.TrackerAgreesWithScanner | src/wsctl/core/ansi.py:38-48 | Tracker and scanners agree on every prefix of a buffer if and only if, in an OSC body, no run of ESCs of odd length is followed by BEL and none of even length by a backslash |
| Ansi.SequenceEndIsTrackerBoundary | src/wsctl/core/ansi.py:62-76 | On such buffers `sequence_end` is the first index at which the tracker is outside again |
| Ansi.OscEscBelSplitsThem | src/wsctl/core/ansi.py:235-238 | `ESC ] ESC BEL`: the scanner sees the string end, the tracker does not |
| ClientRuns.EveryClient | src/wsctl/server/client.py:168-472 | In every reachable client `_pending_bytes` is the sum of the queued payloads and within a positive budget, there are at most `max(1, max_pending)` terminal and 128 control frames, and items leave in strictly increasing arrival order |
| Fifo.TakeIsDequeue | src/wsctl/server/client.py:503-519 | Two deques with one numbering are one queue: what is taken is its head, and the wire stays a subsequence of the arrival history in increasing order |
| Fifo.AddFrameIsEnqueue | src/wsctl/server/client.py:425-430 | and a new frame joins at its end |
| Fifo.AddControlIsEnqueue | src/wsctl/server/client.py:314-332 | and so does a control message; a full control queue loses its oldest message only |
| ClientSpec.DropShrinks | src/wsctl/server/client.py:168-218 | A drop that reports success made the queue shorter, one that does not left it empty: every shedding loop terminates |
| Shedding.DropLiveStops | src/wsctl/server/client.py:206-218 | A drop of live frames removes the frames up to the first that ends outside a sequence, and reports failure exactly when there is none |
| Shedding.SilentLoss | src/wsctl/server/client.py:242-256 | `_shed_for` evicts without counting or announcing if and only if it is called over budget on a non-empty queue whose every frame ends inside a sequence |
| Shedding.LossInSilence | src/wsctl/server/client.py:242-256 | Two puts after which a byte is lost, uncounted and unannounced, and the stream left begins inside a sequence |
| Shedding.EveryShedCut | src/wsctl/server/client.py:206-256 | In every run of frames within budget and without snapshots: a put, or a request to give up data, evicts exactly when it must, and the stream left begins outside a sequence unless the last frame queued ends inside one and no earlier frame is both a place to stop and enough, and then it does not |
| Shedding.ShedForStops | src/wsctl/server/client.py:242-256 | Making room among live frames takes no more than it has to: it stops behind the first frame that ended outside a sequence and left room for the new one, by bytes and by frames, or empties the queue |
| Shedding.ShedOldestLoopStops | src/wsctl/server/client.py:220-235 | Giving up data stops the same way once the target is met, and not before |
| Shedding.PutLeavesRoom | src/wsctl/server/client.py:397-431 | The frame put stands last, behind a suffix of the line; it is alone, or the line is within both bounds |
| Shedding.OversizeIsLostAlone | src/wsctl/server/client.py:397-418 | A frame above the whole budget takes nothing with it; it is counted once, and its range is in a new gap, or in the pending range of an open one; a DISPLAY frame names no range |
| GapCoverage.EveryLossIsTold | src/wsctl/server/client.py:258-291 | For a v2 client fed live frames with increasing offsets within budget: every evicted byte that is not DISPLAY lies in an announced gap or in the pending range |
| Gaps.EveryGapIsTight | src/wsctl/server/client.py:258-291 | For the same client a gap begins with the first byte of an evicted stream frame and ends with the last byte of one |
| Gaps.OneGapInABurst | src/wsctl/server/client.py:258-310 | For every client and all its acts, until both queues are sent empty at most one gap and one notice are queued |
| Gaps.CountedLossIsSpoken | src/wsctl/server/client.py:258-310 | A loss that is counted outside a burst is spoken of at once: its range as a gap, and the notice |
| LostRanges.DropKeepsAccount | src/wsctl/server/client.py:206-218 | One drop keeps every evicted frame in a gap or in the pending range if and only if the frame dropped is DISPLAY or unsequenced, or it ends at or beyond every evicted frame not yet announced, and begins at or beyond the range unless it is announced already |
| LostRanges.GroupKeepsAccount | src/wsctl/server/client.py:192-204 | Dropping a snapshot group always keeps it |
| LostRanges.ReplayForgetsLosses | src/wsctl/server/client.py:211-214 | A run: three reads, then a repair whose second replay frame evicts the first; the pending range [4, 9) becomes [4, 4), and two losses are in no gap and not pending |
| LostRanges.RangeOutlivesBurst | src/wsctl/server/client.py:520-522 | A run after which both queues are empty, the burst is over, and a lost frame is in no gap |
| SnapshotGroups.SnapshotsAreAtomic | src/wsctl/server/client.py:356-395 | Over every run in which no snapshot of several chunks is queued directly behind a frame ending inside a sequence, a chunk with LAST is sent only if all earlier chunks of its snapshot were sent, before it |
| SnapshotGroups.DropTearsIffItWalks | src/wsctl/server/client.py:192-218 | One drop leaves a snapshot without its head if and only if an unfinished run of frames ending inside a sequence stands directly before a chunk that is not its last |
| SnapshotGroups.ShedKeepsWhole | src/wsctl/server/client.py:192-204 | Removing frames from the head keeps snapshots whole if and only if the last one removed is not the part of a snapshot that continues |
| Holes.TornSnapshot | src/wsctl/server/client.py:206-217 | Three puts and one turn of the writer after which the LAST chunk of a snapshot is sent although its first chunk was shed, with `max_pending` as deployed |
| ClientRuns.SplitIsWhole | src/wsctl/server/client.py:356-395 | The chunks of a snapshot are non-empty, at most 1 MiB, and concatenate to it |
| Client.WsClient.DropOldestBinary | src/wsctl/server/client.py:168-218 | In place: drops a whole remaining snapshot group, or live frames up to a boundary, with the lost range |
| Client.WsClient.ShedFor | src/wsctl/server/client.py:242-256 | The loop computes `ClientSpec.ShedFor` |
| Client.WsClient.ShedOldest | src/wsctl/server/client.py:220-235 | The loop computes `ClientSpec.ShedOldest` and returns the bytes given up |
| Client.WsClient.AnnounceShed | src/wsctl/server/client.py:258-310 | One exact gap and one notice per burst |
| Client.WsClient.AppendControl | src/wsctl/server/client.py:314-332 | A control message joins, the oldest ones making room |
| Client.WsClient.RecordDrop | src/wsctl/server/client.py:339-354 | A frame that was never queued is counted and, unless it is a refused snapshot, announced |
| Client.WsClient.QueueSnapshot | src/wsctl/server/client.py:356-395 | A snapshot is queued in chunks as a whole, or refused as a whole after shedding |
| Client.WsClient.PutData | src/wsctl/server/client.py:397-431 | One sequenced frame in all its branches: closed, legacy, snapshot, oversize, fitting |
| Client.WsClient.Put | src/wsctl/server/client.py:433-472 | One unsequenced frame: closed, oversize, fitting |
| Client.WsClient.SendNext | src/wsctl/server/client.py:495-528 | One turn of the writer: the lower order number goes, the burst ends when both queues are empty, a frame that cannot be encoded closes the client |
| Protocol.DataRoundTrip | src/wsctl/core/protocol.py:122-145 | Encoding succeeds exactly for a 64-bit offset, at most 1 MiB and known flags, and decodes to what was encoded |
| Protocol.DataIsCanonical | src/wsctl/core/protocol.py:133-145 | Every data frame that decodes is the encoding of what it decodes to |
| Protocol.DataLayout | src/wsctl/core/protocol.py:68-130 | A data frame is the byte 1, the offset in eight bytes with the most significant first, the flags, and the payload |
| Protocol.FlagLayout | src/wsctl/core/protocol.py:56-63 | SNAPSHOT is 1, REPLAY 2, LAST 4 and DISPLAY 8 in the flag byte |
| Protocol.InputRoundTrip | src/wsctl/core/protocol.py:148-169 | The same both ways for input frames |
| OscParser.IncrementalParsing | src/wsctl/core/command_block.py:90-121 | For every split of the stream within the buffer bound, the payloads extracted read by read are those of a one-pass byte machine over the whole stream, introducers and terminators split across reads included |
| OscParser.ScanIsMachine | src/wsctl/core/command_block.py:103-114 | One read of find, cut and repeat extracts what the machine extracts, and the tail kept is enough to go on from |
| OscParser.CommandBlockParser.Feed | src/wsctl/core/command_block.py:90-114 | The loop over the bytearray computes `FeedOne` |
| OscParser.FindTerminator | src/wsctl/core/command_block.py:263-275 | The two finds give the first of BEL and ST |
| OscCuts.CutLosesPayload | src/wsctl/core/command_block.py:98-100 | Cutting a prefix off the buffer leaves the payloads as they are if and only if no complete sequence begins in it; the total length of payloads never grows |
| OscCuts.CutLeaves | src/wsctl/core/command_block.py:98-100 | The payloads after a cut are those of the sequences behind it, and before them the fragment an introducer in the cut body opens |
| OscCuts.CutGains | src/wsctl/core/command_block.py:98-100 | A cut yields a payload the buffer never held if and only if there is such a fragment and it is the payload of no sequence |
| OscCuts.MarkerFromBody | src/wsctl/core/command_block.py:97-100 | One read of a single long OSC string, one byte above `MAX_OSC`, yields the marker `133;D` that stands in its body |
| OscCuts.OversizedRead | src/wsctl/core/command_block.py:98-100 | A read beyond `MAX_OSC` extracts the same payloads if and only if the cut meets no complete sequence |
| CommandBlocks.SplitsDoNotMatter | src/wsctl/core/command_block.py:118-121 | However the marks are spread over reads, the log is that of one pass, cut down to its last `max_blocks` blocks |
| CommandBlocks.NewestAreKept | src/wsctl/core/command_block.py:118-121 | The blocks kept are the newest ones, as many as `max_blocks` allows, in order |
| CommandBlocks.StartIsFirstExecution | src/wsctl/core/command_block.py:136-157 | A command's start time is that of the first `C` since the last `133;A` or `D`, and it has one if and only if there is such a `C` (a `633;A` does not reset it) |
| CommandBlocks.BlockTells | src/wsctl/core/command_block.py:234-255 | A finished command adds one block: the last command line since the last `133;B` or reset, the last non-empty directory, the first execution, the first known offset of output since the last `133;B` or reset, the exit code, and `ok`, `failed` or `running` as it is zero, not zero or unknown |
| CommandBlocks.FinishStartsAfresh | src/wsctl/core/command_block.py:138-142 | After `133;A` and after a finish nothing but the directory is left of the command in progress |
| CommandBlocks.TruncateIsTowardZero | src/wsctl/core/command_block.py:244 | A duration is cut to whole milliseconds toward zero |
| CommandBlocks.StartIsInherited | src/wsctl/core/command_block.py:192-194 | An interrupted command followed by one announced with `633;A`: the second takes the start of the first; with `133;A` it does not |
| Marks.MarkRoundTrip | src/wsctl/core/command_block.py:125-214 | The text a shell writes for a mark is recognised as that mark, for every directory, command and exit code |
| Marks.MarksInCommon | src/wsctl/core/command_block.py:149-213 | `C` and `D` mean the same in OSC 133 and OSC 633, exit code included |
| Marks.DirectoryInCommon | src/wsctl/core/command_block.py:165-189 | `P;Cwd=` and `P;Dir=` tell the directory in both, unless it is empty |
| Marks.NothingElseIsAMark | src/wsctl/core/command_block.py:125-215 | Whatever is recognised stands behind `133;` or `633;` and is `A`, `B`, `C`, `D`, `P`, or `E` of OSC 633 |
| Marks.ExitCodeRoundTrip | src/wsctl/core/command_block.py:157-165 | Every integer printed in decimal is read back |
| CommandBlocks.BlockLog.HandlePayload | src/wsctl/core/command_block.py:125-214 | The text of one payload, recognised and handled |
| CommandBlocks.BlockLog.HandleMark | src/wsctl/core/command_block.py:136-257 | What each mark does to the command in progress and to the blocks |
| CommandBlocks.BlockLog.FeedMarks | src/wsctl/core/command_block.py:101-121 | The marks of one read, then the trim |
| AuthCache.NoStaleHit | src/wsctl/core/authcache.py:59-97 | Under any interleaving of lookups, mutations, invalidations, expiry and eviction, once an invalidation has returned no cached user it applies to was read before that mutation committed |
| AuthCache.EveryState | src/wsctl/core/store.py:648-680 | The invariant behind it: a lookup that began under the current epoch has read nothing older than a landed mutation |
| AuthCache.HeldResultGoesStale | src/wsctl/core/store.py:676-680 | The guard is needed: a lookup can hold a stale user, and then its epoch is old |
| AuthCache.AuthCache.Get | src/wsctl/core/authcache.py:59-70 | A hit exactly for an entry alive on both clocks; otherwise the entry goes |
| AuthCache.AuthCache.Put | src/wsctl/core/authcache.py:72-97 | A write-back under an old epoch changes nothing; otherwise the entry is stored, the cache stays within its size, and what goes for it is expired or among the oldest and no more than made room; a cache of no size empties itself and fails |
| AuthCache.AuthCache.InvalidateUser | src/wsctl/core/authcache.py:104-112 | The epoch moves on and every entry of that user goes, no other |
| AuthCache.AuthCache.InvalidateToken | src/wsctl/core/authcache.py:99-102 | The epoch moves on and that entry goes, no other |
| AuthCache.AuthCache.Evict | src/wsctl/core/authcache.py:119-125 | Expired entries go; an entry that has not expired goes only if it is no younger than those that stay and there is then room for exactly one entry |
| AuditChain.BatchesDoNotMatter | src/wsctl/core/store.py:1126-1178 | Any list of batches writes the same rows as one batch of all their events |
| AuditChain.WrittenRowsCarry | src/wsctl/core/store.py:1126-1178 | A batch leaves the rows there are and adds one for each event, in order, with its time, all its fields and the next id |
| AuditChain.WrittenVerifies | src/wsctl/core/store.py:1246-1310 | What was written verifies and is not truncated |
| AuditChain.MigratedLogVerifies | src/wsctl/core/store.py:1126-1310 | What is written after rows without a hash starts at the genesis and verifies; the whole is truncated if and only if there are such rows |
| AuditChain.RetentionVerifies | src/wsctl/core/store.py:1090-1093 | A chain whose times do not go back still verifies after retention, and is truncated exactly when something is left of it and it was truncated before or has lost a row |
| AuditChain.RecentIsExact | src/wsctl/core/store.py:1090-1093 | Retention keeps exactly the rows with `ts >= before`, in order |
| AuditChain.RetentionShows | src/wsctl/core/store.py:1090-1093 | Whatever the times are, a chain with distinct hashes verifies after retention if and only if no row went from between two that stayed |
| AuditChain.EveryLogVerifies | src/wsctl/core/store.py:1090-1310 | Over every run of batches and purges whose times do not go back the log verifies, and reports itself truncated exactly when it holds rows and a purge has taken some since it was last empty |
| AuditChain.DeletionShows | src/wsctl/core/store.py:1246-1310 | With distinct hashes, a selection of the rows of a verified chain verifies if and only if the rows kept were neighbours: losses at either end do not show, losses inside do |
| AuditChain.LastHashCommits | src/wsctl/core/store.py:206-239 | With a collision-free digest, two verified chains of one length and one last hash agree in every hashed field of every row, times to the microsecond; the row id is not hashed |
| AuditChain.MicrosIsNearest | src/wsctl/core/store.py:227 | The time hashed is the nearest whole microsecond, of two equally near the even one |
| AuditChain.HashedIsExact | src/wsctl/core/store.py:1260 | Verification reads exactly the rows with a hash, in order |
| AuditChain.TruncatedExactly | src/wsctl/core/store.py:1260-1273 | Truncated means that some row has no hash, or the first one does not name the genesis |
| AuditChain.TimesBelowTheMicrosecond | src/wsctl/core/store.py:224-229 | Two times in one microsecond have one digest: the qualification is needed |
| AuditChain.AuditLog.WriteEvents | src/wsctl/core/store.py:1126-1178 | The loop appends the rows of `Chain` from the last hash, or from the genesis |
| AuditChain.AuditLog.VerifyAudit | src/wsctl/core/store.py:1246-1310 | `ok` if and only if every hashed row digests to its hash and names its predecessor's; otherwise the first row that does not is reported; truncated exactly when rows carry no hash or the chain does not start at the genesis |
| AuditChain.AuditLog.PurgeAudit | src/wsctl/core/store.py:1090-1093 | Removes exactly the rows older than the limit |
| Idempotency.EveryKeyHasOneOwner | src/wsctl/core/database.py:695-763 | Over all interleavings of claim, put, abort, crash and purge by requests that finish or die within `stale_after`, at most one request owns a key at a time |
| Idempotency.StoredIsReplayed | src/wsctl/core/database.py:771-799 | Once a response is stored, every later matching claim replays that response until it is purged |
| Idempotency.TimelyReplays | src/wsctl/core/database.py:743-763 | Over every timely run, a claim that is answered with a stored response gets one that was given earlier to a request of the same key, method and path, with the same content hash or one of the two empty |
| Idempotency.ReplayedIsOwn | src/wsctl/core/database.py:743-763 | The same over every run, timely or not, in which each response finds no row of another route under its key |
| Idempotency.StrayResponse | src/wsctl/core/database.py:771-799 | If a response does find one, a claim of that other route is answered with it from then on |
| Idempotency.LateResponseStrays | src/wsctl/core/database.py:752-799 | A run of six steps in which a late response is stored as the answer of another route |
| Idempotency.ClaimIsExact | src/wsctl/core/database.py:716-763 | Conflict if and only if the key is there with another method, another path, or another content hash where both are known; every answer but `claimed` leaves the table alone |
| Idempotency.PutIsExact | src/wsctl/core/database.py:771-799 | A response sets status and body of its row and no other row; time and route of the row stay, and a content hash is replaced by a known one only |
| Idempotency.FailureFreesTheKey | src/wsctl/core/database.py:765-769 | After a failure the next request for the key claims it, and no other row has changed |
| Idempotency.ArrivalShares | src/wsctl/core/database.py:752-757 | One arrival makes two requests share a key if and only if the key has an owner that has outlived its claim, for the same request |
| Idempotency.LateRequestShares | src/wsctl/core/database.py:752-757 | A run in which that happens |
| Idempotency.TakeoverAfterCrash | src/wsctl/core/database.py:752-757 | A run in which a request dies and the next takes its stale claim over, within the bounds of the theorem |
| Idempotency.IdempotencyStore.Claim | src/wsctl/core/database.py:695-763 | The four answers of a claim and the row each leaves |
| Idempotency.IdempotencyStore.Put | src/wsctl/core/database.py:771-799 | Stores the response under the key |
| Idempotency.IdempotencyStore.AbortClaim | src/wsctl/core/database.py:765-769 | Removes a pending row only |
| Idempotency.IdempotencyStore.PurgeOld | src/wsctl/core/database.py:801-807 | Removes exactly the rows created before the limit |
| WinQuote.RoundTrip | src/wsctl/core/_winpty.py:28-52 | Reading the command line back by the CommandLineToArgvW rules for arguments after the program name gives the list of arguments, whatever they hold |
| WinQuote.PlainIsKept | src/wsctl/core/_winpty.py:35-36 | An argument is left as it is if and only if it is not empty and holds no space, tab, line break or quote |
| WinQuote.CommandLineIsInjective | src/wsctl/core/_winpty.py:75 | No two argument lists share a command line |
| WinQuote.CmdlineQuote | src/wsctl/core/_winpty.py:28-52 | The loop with its backslash counter computes `Quote` |
| WinQuote.JoinQuoted | src/wsctl/core/_winpty.py:75 | The space-join computes `CommandLine` |

## Left out

- Resume.ExactResume: for runs that lose nothing on the current connection, because one loss can break it (`Holes.ShedBreaksResume`), though it need not.
- Resume.DrainedIsCurrent: says nothing of a display that only snapshots have painted, whose bytes are opaque here.
- AfterLosses.RepairedIsExact: the notices sent around a repair are left out, other control messages do not come while it is in line, and a connection that is cut before it is delivered is followed no further.
- Shedding.EveryShedCut: about frames within budget and without snapshots, because an oversize frame is lost alone and moves the parser without entering the queue.
- Shedding.ShedForStops: about queues without snapshots, of which a drop takes the whole rest of a group.
- Gaps.EveryGapIsTight: for runs in which nobody but the client puts gap messages; a range may span frames that were sent.
- Retained.WantedIsKept: says nothing of places in a read that began inside a sequence, which can go with it.
- GapCoverage.EveryLossIsTold: about live frames with increasing offsets; for others see `LostRanges.DropKeepsAccount`.
- RingRuns.OrphanHead: about streams without four continuation bytes in a row, as all UTF-8 is (section 3 of RFC 3629).
- AuditChain.LastHashCommits: the digest is a function assumed to be collision-free; SHA-256 and the JSON text it hashes are not modelled.
- AuditChain.EveryLogVerifies: assumes that no digest is empty or the genesis hash.
- WinQuote.RoundTrip: the separate rule of CommandLineToArgvW for the program name is not modelled.
- AuthCache.NoStaleHit: another process's mutations are one revocation of everything, as the store makes them when `PRAGMA data_version` has moved; within a lookup the session row and the user are dated by the earlier read.
- Idempotency.IdempotencyStore.Claim: one transaction is one step, so the insert that loses a race appears as the claim that finds the row; bodies are opaque text.
- CommandBlocks.BlockLog.HandlePayload: the payload is text already, and decoding base64 is a function given to it.
- Marks.ExitCodeRoundTrip: blanks and digits are those of ASCII, and a number may be of any length.
- Session.TermSession.Broadcast: which shares are revoked is given to it; the session's memory cap, which may afterwards shed the backlog of its viewers or let one go, is left out, and so are recorder and snapshotter.
- Scrollback readers without offsets: `replay_frames`, `chunks` and `snapshot` are left out beside their numbered forms.
- Viewer: writing to the terminal never fails, acknowledgements and pauses are left out, and control messages are a datatype rather than JSON.
- Generations are numbers that grow with each restart; the source draws them at random.
- A snapshot is an opaque byte string anchored at the end of the stream; pyte, tmux capture and their text are left out.
- The callbacks `on_shed` and `on_gap`, the process-wide counters, recording, webhooks, and `ack`.
- The v1 `attach`.
- PTY, tmux, SSH, sockets, threads, `asyncio` scheduling and SQLite: lock-held regions and transactions are atomic steps.
- Repaint timing, rate limiting, sliding expiry, the last-admin guard, routes, the web interface and configuration: simple or outside the core.
