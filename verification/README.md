# A verified model of gritty's state machines

gritty keeps remote shells alive across disconnects. The parts of it that are
hard to get right are small deterministic machines: parsers that consume a
terminal byte stream cut anywhere, a length-prefixed wire codec, the daemon's
session table, the lock protocol between tunnel supervisors, and the client's
run-time guards. This project models those machines in Dafny and proves what
they are for, for every input and every run.

Each component comes in up to four layers:

- a specification that does not mention the machine (`QueryGrammar`,
  `EscapeGrammar`, `ScrollbackSpec`, `SlidingWindow`) or the machine as
  functions on a value (`ShadowModel`, `ModeModel`, `FilterModel`,
  `EscapeModel`, `Frames`, `SessionTable`, `Supervision`, `ForwardModel`,
  `LockProtocol`);
- lemmas about whole streams and whole runs of it;
- laws that pin the machine down from outside: for every input or event the
  exact reply, movement, bytes or change, by literal numbers and without the
  machine's own functions (`CursorMoves`, `QueryLaws`, `ModeLaws`,
  `EscapeLaws`, `FrameWire`, `FramePartial`, `SessionLaws`, `LockLaws`,
  `SupervisionLaws`, `ForwardLaws`);
- where the source updates an object in place, a class with the same fields
  whose methods and loops are proved to compute exactly those functions.

`dafny verify dfyconfig.toml` checks the project.

## What the proofs say about the code

These are the places where a promise does not hold in general; each has a
lemma with the input or the exact condition.

- **Cursor restore.** The restore sequence re-creates the column exactly when
  not both the width is unknown (0) and the column is the largest `usize`:
  `target + 1` then wraps (a release build; a debug build panics). The column
  is reachable with one cursor-forward sequence (`ReachableRestore`,
  `OverflowingColumnIsReachable`).
- **Following on.** A restored terminal shows the source's column and attributes
  after every further stream exactly when the source is in `Ground`, the saved
  cursors agree, DECAWM agrees or the width is unknown, and the column is
  neither the unnameable one nor wrap-pending (`RestoredTerminalFollowsExactly`;
  `DifferenceShows` gives the telling stream for each condition that fails, and
  `WrapPendingDiverges` a single glyph for the wrap-pending position).
- **Mode catch-up.** A terminal can follow whatever comes later exactly when
  the source's scanner is in no sequence that may still change a tracked mode
  (`CatchUpExactly`). Between sequences is enough but not necessary: a list of
  sixteen untracked numbers does no harm (`SpentIsReachable`). In every other
  state some later bytes leave the terminal behind (`CatchUpMidSequence`).
- **Codec.** A frame comes back as itself exactly when its strings fit their
  16-bit prefixes, its error code is not `Unknown(1)` to `Unknown(8)`, and its
  payload is at most 1 MiB (`FrameRoundTripsExactly`). The encoder truncates a
  longer string's length silently; one of 65536 bytes reads as empty
  (`LongStringIsLost`).
- **Older peers.** A later field is read when the payload holds all of it and is
  0, off or empty otherwise (`HelloWithoutDevice`, `AttachCut`, `CreationCut`,
  `EntryCut`). One form that an older client may send is refused all the same:
  a creation request with an empty name, command and directory and no client
  name has 10 bytes, and the decoder asks for 12.
- **Early exit.** The replay filter gives a string body up exactly when no
  continuation makes it a query, except that a DCS is judged only from its
  second byte (`EarlyExitExactly`).
- **Readiness pipe.** A warning is shown as it was written exactly when it has
  no white space at its ends and is at most 65535 bytes long, or one or two
  bytes longer and ending in the very replacement character that its cut
  leaves behind (`UnchangedExactly`, `WarningsArriveExactly`).
- **Lock files.** Of all the unlinks, only two can remove another process's
  lock: a bail guard whose own `fstat` failed at startup (an unknown identity
  counts as still owned), and a cleaner whose lock file was deleted from
  outside between its acquire and its unlink. They do exactly when the path
  then names a lock that anybody can see held and that is not the process's
  own (`HarmExactly`, `UnknownIdentityHarms`, `SplitCleanupHarms`).
- **Session ids.** The `u32` counter wraps. An accepted creation costs a
  session its place exactly when the next id is still in use
  (`CreationOverwritesExactly`), which cannot happen in a daemon's first 2^32
  creations. A reconnect by id goes wrong exactly when the same daemon still
  runs, 2^32 or more creations have followed the client's session, and its id
  is in use again (`ReconnectIsRight`). That happens: in a run that keeps the
  first session alive, creation 2^32 + 1 replaces it and its client's
  reconnect lands in the other session (`WrappedCreationOverwrites`).
- **Ownership.** The attach token is the device id, and token zero means an
  explicit attach, so a client whose device id is 0 is never answered
  `OwnerChanged` (`ReconnectChecksOwner`). gritty's own client never has that
  id (`src/lib.rs:147-190` makes a new one); only a peer whose Hello carries
  zero or is too short to carry an id reaches the case. The comment beside the
  check speaks of every automatic reconnect; the model follows the code.
- **Port forwards.** Client ids are distinct only within 2^31 consecutive
  draws of the counter (`ClientIds`). Channels stay registered even beyond
  that; pending forwards do exactly as long as no request is sent under an id
  that still waits or is watched (`StepKeepsPendingExactly`,
  `WrappedRequestBreaksPending`).

## Model

| member | source | states |
|---|---|---|
| Bytes.JoinSplit | src/line_shadow.rs:324-331 | splitting at a separator and joining gives the string back, and no piece holds the separator |
| Bytes.SplitJoin | src/line_shadow.rs:337-346 | joining separator-free pieces and splitting gives the pieces back |
| Bytes.ParseDecimal | src/daemon.rs:168-190 | a printed number parses back to itself exactly when the type can hold it |
| Bytes.ParseNumeral | src/line_shadow.rs:369-378 | a numeral, whatever plus sign and leading zeros it has, parses to its number, or to nothing beyond the type |
| Bytes.OnlyNumeralsParse | src/daemon.rs:183-188 | and only numerals parse |
| LineShadows.LineShadow.constructor | src/line_shadow.rs:70-85 | a new shadow is the model's initial state and satisfies the invariant |
| LineShadows.LineShadow.ScanBytes | src/line_shadow.rs:111-115 | scanning a chunk in place computes the model's fold over it and keeps the invariant |
| LineShadows.LineShadow.StepByte | src/line_shadow.rs:117-134 | one byte takes the in-place machine exactly where the model goes, in all six states |
| LineShadows.LineShadow.GroundStep | src/line_shadow.rs:136-155 | control bytes, tab stops and printables in `Ground`, a half-read character dropped by any control |
| LineShadows.LineShadow.PrintStep | src/line_shadow.rs:157-188 | UTF-8 lead and continuation bytes fill the 4-byte buffer within bounds; a broken character restarts at the byte that broke it |
| LineShadows.LineShadow.EscStep | src/line_shadow.rs:213-244 | DECSC, DECRC, RIS, NEL, string and charset introducers |
| LineShadows.LineShadow.CsiStep | src/line_shadow.rs:246-267 | parameters collected up to 64 bytes; an overlong sequence is consumed without effect |
| LineShadows.LineShadow.Dispatch | src/line_shadow.rs:269-309 | cursor moves, DECAWM and SGR of section 5.4 of ECMA-48 sequences |
| LineShadows.LineShadow.ApplyParams | src/line_shadow.rs:319-355 | the SGR token loop equals the recursive reading of its tokens, extended colors taken whole |
| LineShadows.LineShadow.Restore | src/line_shadow.rs:94-109 | the restore string: clamped column, reset, then each segment |
| ShadowInvariant.ApplyTokensKeepsSgrOk | src/line_shadow.rs:319-365 | every segment stored by any SGR sequence is at most 64 parameter bytes that re-parse as one segment, and there are at most 64 |
| ShadowInvariant.StepKeepsInv | src/line_shadow.rs:117-309 | no byte in any state, for any glyph widths, leaves the invariant: segments, saved cursor, column bounds, buffers |
| ShadowInvariant.ScanKeepsInv | src/line_shadow.rs:111-115 | the invariant holds after every byte stream |
| ShadowRestore.SegmentReparses | src/line_shadow.rs:319-365 | a stored segment sent back through the SGR parser appends exactly itself |
| ShadowRestore.ScanCsiSequence | src/line_shadow.rs:246-267 | a whole control sequence within the cap is dispatched with its exact parameters |
| ShadowRestore.ScanSegments | src/line_shadow.rs:104-107 | the printed segments rebuild the attribute list in order |
| ShadowRestore.RestoreRoundTrip | src/line_shadow.rs:94-109 | any shadow of the same width in `Ground`, fed the restore sequence, takes over the attributes and the clamped column and keeps everything else |
| ShadowRestore.ReachableRestore | src/line_shadow.rs:89-109 | after any byte stream the restore re-creates the attributes, and the clamped column if and only if it does not overflow |
| ShadowRestore.OverflowingColumnIsReachable | src/line_shadow.rs:94-109 | one cursor-forward sequence reaches the only column that cannot be restored |
| ShadowRestore.SameTerminalScan | src/line_shadow.rs:111-134 | leftovers of an earlier control sequence never influence a later byte |
| ShadowRestore.RestoredTerminalFollows | src/line_shadow.rs:89-109 | a restored terminal with the source's DECAWM and DECSC state tracks every further stream like the source, when the source is at rest in `Ground`, not wrap-pending, in a column that can be restored |
| ShadowRestore.RestoredTerminalFollowsExactly | src/line_shadow.rs:89-109 | for a width other than one and a source not in the middle of a character, column and attributes agree after every further stream if and only if the source is in `Ground`, the saved cursors agree, the widths are unknown or DECAWM agrees, and the column is neither wrap-pending nor the unnameable one |
| ShadowRestore.DifferenceShows | src/line_shadow.rs:89-365 | for each condition that fails, a further stream after which column or attributes differ |
| ShadowRestore.WrapPendingDiverges | src/line_shadow.rs:94-109 | restored from the wrap-pending position, the terminal stands in another column after one more narrow glyph |
| ShadowRestore.ColumnStaysOnScreen | src/line_shadow.rs:197-211 | with a known width the current and saved columns never pass the margin, on any stream and any glyph widths |
| ShadowRestore.NarrowTextWraps | src/line_shadow.rs:136-211 | n glyphs of one column, whether ASCII, stray bytes or multibyte characters the width tables call narrow, printed from column 0 end at 0 if n is 0, else at (n-1) mod cols + 1 |
| ShadowRestore.PrintGlyph | src/line_shadow.rs:157-211 | a whole character, read byte by byte, only moves the column by its width |
| CursorMoves.CupMoves | src/line_shadow.rs:269-303 | CUP and HVP from any shadow in `Ground`: whatever the row, the second number c leads to column c-1, clamped; absent, 0 and unreadable ones to column 0; nothing else changes |
| CursorMoves.CupOfTwoNumbers | src/line_shadow.rs:301-302 | `ESC [ r ; c H` and `f` for all printed r and c that fit the 64 bytes |
| CursorMoves.CupWithoutColumn | src/line_shadow.rs:301-302 | without a second parameter CUP and HVP go to column 0 |
| CursorMoves.ColumnMoves | src/line_shadow.rs:292-293 | CHA and HPA lead to column n-1, clamped |
| CursorMoves.LeftMoves | src/line_shadow.rs:300 | CUB goes left by max(n, 1), no further than column 0 |
| CursorMoves.RightMoves | src/line_shadow.rs:294-299 | CUF and HPR go right by max(n, 1), saturating, no further than the last column |
| CursorMoves.LineMoves | src/line_shadow.rs:303-304 | CNL and CPL go to column 0 whatever their parameters |
| CursorMoves.ControlMoves | src/line_shadow.rs:136-155 | CR, BS, TAB to the next multiple of eight, and every other control byte but ESC |
| CursorMoves.GlyphMoves | src/line_shadow.rs:157-211 | where a glyph of any width leaves the column, with and without DECAWM, and with the width unknown |
| CursorMoves.BrokenCharacter | src/line_shadow.rs:171-176 | a byte that does not continue a half-read character is read as if that had not been there |
| CursorMoves.PrivateModes | src/line_shadow.rs:277-288 | `ESC [ ? ... h` and `l` switch DECAWM exactly when 7 is in the list, and change nothing else |
| CursorMoves.OthersDoNothing | src/line_shadow.rs:269-309 | sequences with an intermediate, other private markers and every other final byte change nothing |
| CursorMoves.OverlongDoesNothing | src/line_shadow.rs:246-267 | a sequence of more than 64 parameter bytes changes nothing, whatever it says |
| CursorMoves.SaveRemembers | src/line_shadow.rs:223 | DECSC remembers the column and the attributes |
| CursorMoves.RecallRestores | src/line_shadow.rs:224-229 | DECRC brings back what is remembered, or nothing, and goes on remembering it |
| CursorMoves.FullReset | src/line_shadow.rs:230-236 | RIS: column 0, DECAWM on, no attributes, nothing remembered |
| CursorMoves.OtherEscapes | src/line_shadow.rs:213-244 | NEL goes to column 0 and every other two-byte escape changes nothing |
| CursorMoves.DesignatorsDoNothing | src/line_shadow.rs:239-242 | a designator swallows exactly one byte |
| CursorMoves.StringsDoNothing | src/line_shadow.rs:120-133 | OSC, DCS, SOS, PM and APC strings change nothing, whatever they hold |
| CursorMoves.UnheardInSequence | src/line_shadow.rs:246-267 | control bytes but ESC, and bytes from DEL up, go unheard in a control sequence |
| CursorMoves.EscAbandons | src/line_shadow.rs:264 | ESC abandons a control sequence and begins the next one |
| CursorMoves.SgrApplies | src/line_shadow.rs:311-365 | a whole SGR list applies its items in order: resets, plain numbers, colon forms, palette and direct colors as one segment each, numbers beyond `u32` ignored, a 65th dropping the rest |
| CursorMoves.SgrOpenColor | src/line_shadow.rs:338-347 | an extended color the list ends in the middle of is kept as far as it goes |
| CursorMoves.SgrOfOne | src/line_shadow.rs:319-365 | `ESC [ m`, `ESC [ 0 m` and every list of one number |
| QueryGrammar.QueryLengthUnique | src/query_filter.rs:226-265 | no query is a proper prefix of another, so the declarative filter has one answer |
| QueryLaws.CsiExactly | src/query_filter.rs:235-265 | a control sequence of at most 64 bytes is a query exactly when it is DA, DSR, DECRQM, XTVERSION, the kitty keyboard query, one of nine XTWINOPS numbers or an XTSMGRAPHICS read: over every marker, field list, intermediates and final byte, written as numbers |
| QueryLaws.LongCsiIsKept | src/query_filter.rs:113-118 | a longer one never is |
| QueryLaws.OscExactly | src/query_filter.rs:193-210 | an OSC exactly when its last field is `?` |
| QueryLaws.DcsExactly | src/query_filter.rs:193-210 | a DCS exactly when it begins with `$q` or `+q` |
| QueryLaws.KittyExactly | src/query_filter.rs:193-232 | a graphics command exactly when a control field before the payload is `a=q` |
| QueryLaws.OtherApcIsKept | src/query_filter.rs:193-210 | no other APC is a query |
| QueryLaws.NothingElse | src/query_filter.rs:81-166 | apart from DECID every query is one of those strings, within 64 and 4098 bytes |
| QueryLaws.EarlyExitExactly | src/query_filter.rs:168-191 | the early exit gives a body up exactly when no continuation makes it a query, but for the first byte of a DCS |
| QueryFilters.QueryFilter.constructor | src/query_filter.rs:60-66 | a new filter holds nothing back |
| QueryFilters.QueryFilter.ScrubChunk | src/query_filter.rs:68-75 | scrubbing a chunk in place equals the model's fold, state and output |
| QueryFilters.QueryFilter.Finish | src/query_filter.rs:77-79 | at the end of the stream at most 4097 bytes are passed on raw, and nothing in them starts a query |
| QueryFilters.QueryFilter.StepByte | src/query_filter.rs:81-166 | one byte of the in-place machine is the model's step in all five states |
| QueryFilters.QueryFilter.EscByte | src/query_filter.rs:88-109 | introducers, DECID dropped, anything else flushed and rescanned |
| QueryFilters.QueryFilter.EndOfString | src/query_filter.rs:193-210 | a terminated string is dropped when its body is a query and flushed whole otherwise |
| QueryFilters.StripQueries | src/query_filter.rs:268-273 | the one-shot form returns the stream without exactly its queries |
| FilterModel.HeldBackBound | src/query_filter.rs:22-27 | at most 4097 bytes are ever held back |
| FilterModel.ImpossibleStaysImpossible | src/query_filter.rs:168-191 | once `string_may_be_query` is false, no continuation of the body is a query |
| FilterModel.StepSound | src/query_filter.rs:81-166 | one step keeps the meaning of the stream: bytes out plus bytes held and still to come scrub to the same |
| FilterModel.ScrubSound | src/query_filter.rs:68-75 | the same over any chunk, with or without the early exit |
| FilterModel.FinishSound | src/query_filter.rs:77-79 | what is held at the end of a stream starts no query |
| FilterModel.ChunksAreScrubbed | src/query_filter.rs:64-79 | over any chunking, outputs and final flush are the stream without exactly its queries |
| FilterModel.FastEqualsSlow | src/query_filter.rs:135-210 | with the early exit or always buffering, and chunked differently, the total output is the same |
| FilterModel.EarlyExitOnlyReleases | src/query_filter.rs:135-191 | after any common input the early exit has released a longer or equal output, ahead by exactly the bytes only the other machine still holds |
| FilterModel.AheadStep | src/query_filter.rs:135-210 | the simulation: one step keeps the fast machine equal to the slow one, or at rest or in an escape while the slow one holds a body no continuation of which is a query |
| FilterModel.QueryIsDropped | src/query_filter.rs:193-265 | every query that begins at rest is removed whole and leaves the filter at rest |
| FilterModel.ScrubbedRemovesOnlyQueries | src/query_filter.rs:193-265 | the output is the input minus disjoint contiguous segments, each of them a query |
| TermModes.PrivateModeScanner.ScanOne | src/term_modes.rs:67-97 | one byte of the in-place scanner, with the events it reports in order |
| TermModes.PrivateModeScanner.FinishNumber | src/term_modes.rs:111-121 | a seventeenth number drops the sequence; an empty one is skipped |
| TermModes.TermModeTracker.constructor | src/term_modes.rs:175-179 | a new tracker is at rest with the default modes |
| TermModes.TermModeTracker.Scan | src/term_modes.rs:181-193 | scanning a chunk in place equals the model's fold |
| TermModes.TermModeTracker.Position | src/term_modes.rs:181-193 | the lookup finds the tracked mode with that number or reports none |
| TermModes.TermModeTracker.Sync | src/term_modes.rs:195-212 | the catch-up string: one reset list, one set list, empty lists omitted |
| ModeModel.TrackedIndex | src/term_modes.rs:142-159 | the sixteen tracked numbers and their positions |
| ModeSync.TrackDigits | src/term_modes.rs:99-109 | a printed number that fits `u16` is read back digit by digit |
| ModeSync.TrackNumbers | src/term_modes.rs:99-121 | a joined list of up to sixteen numbers is collected in order |
| ModeSync.TrackModeSequence | src/term_modes.rs:67-121 | from any scanner state a mode sequence applies exactly its numbers and ends at rest |
| ModeSync.SyncFromAnyState | src/term_modes.rs:195-212 | the catch-up sequence puts any tracker, mid-sequence included, into the wanted modes |
| ModeSync.CatchUp | src/term_modes.rs:181-212 | a terminal that missed a stream, given the catch-up and everything later, ends with the modes of one that missed nothing, when the source stands in no sequence that may still change a tracked mode |
| ModeSync.CatchUpMidSequence | src/term_modes.rs:67-121 | from every other scanner state there are later bytes after which the modes differ |
| ModeSync.CatchUpExactly | src/term_modes.rs:67-212 | all later streams keep the terminal in step if and only if the source's scanner is in no sequence that may still change a tracked mode |
| ModeSync.SpentIsReachable | src/term_modes.rs:99-121 | a stream that leaves the scanner mid-sequence in such a harmless state |
| ModeSync.ChangesExactly | src/term_modes.rs:181-193 | setting a list of modes gives exactly its tracked ones the value |
| ModeSync.HandbackRestoresDefaults | src/term_modes.rs:215-223 | the default sequence returns every tracked mode to its default from any state |
| ModeLaws.FreshModes | src/term_modes.rs:142-179 | a fresh terminal, and any after RIS, has exactly modes 7 and 25 on |
| ModeLaws.ModesExactly | src/term_modes.rs:67-121 | from any scanner state `ESC [ ? ... h` or `l` gives exactly the listed tracked modes that state, empty fields skipped; with a seventeenth number or one beyond 65535 nothing at all changes |
| ModeLaws.OthersDoNothing | src/term_modes.rs:67-97 | every other escape or control sequence leaves all modes alone |
| ModeLaws.OtherFinalsDoNothing | src/term_modes.rs:67-97 | so does a mode list that ends in anything but `h` or `l` |
| ModeLaws.QuietAtRest | src/term_modes.rs:67-97 | and so does text without an ESC |
| ScrollbackSpec.SplitIsUnique | src/scrollback.rs:22-38 | the declarative split into lines, at newlines and at 4096 bytes, is unique |
| ScrollbackSpec.SplitExtends | src/scrollback.rs:22-30 | one byte either lengthens the unfinished tail or closes it into the next line |
| ScrollbackSpec.ReplayIsSuffix | src/scrollback.rs:50-56 | stored lines and tail are a suffix of everything pushed |
| Scrollback.ScrollbackBuffer.Push | src/scrollback.rs:22-30 | after any pushes the lines are the last 50 of the split of the whole stream (those since the last clear), the partial its tail, and evicted, stored and partial bytes are all the bytes pushed |
| Scrollback.ScrollbackBuffer.FlushPartial | src/scrollback.rs:31-38 | the finished line goes to the back and a 51st evicts the front |
| Scrollback.ScrollbackBuffer.LinesAndPartial | src/scrollback.rs:50-56 | at most 51 pieces that together are a suffix of the stream |
| Scrollback.ScrollbackBuffer.Clear | src/scrollback.rs:58-60 | drops the lines and keeps the partial |
| EscapeGrammar.ReadingAccounts | src/client.rs:185-269 | a reading's bytes are one per data byte, two per action, one extra per doubled tilde |
| EscapeModel.ChunksDoNotMatter | src/client.rs:185-269 | how input was cut into reads does not matter, up to and including the first stop |
| EscapeModel.RunReads | src/client.rs:185-269 | every run, in every state, is a reading of its input in the escape grammar, with at most one tilde held |
| EscapeModel.RunAccounts | src/client.rs:185-269 | for the tokens read from the bytes consumed, data bytes, two bytes per action, one per `~~` among them and a held tilde account for every byte consumed |
| EscapeModel.QuotedRunsAsData | src/client.rs:148-269 | doubled line-start tildes run as plain data and trigger nothing |
| EscapeModel.QuotingIsInverse | src/client.rs:148-269 | quoting then processing, over any chunks, gives exactly the data and no action |
| EscapeLaws.TildeAndKey | src/client.rs:210-262 | each of the 256 keys after a tilde at line start, by number: the action or the bytes, whether the run stops, and the state left |
| EscapeLaws.NothingAfterStop | src/client.rs:212-222 | what comes after a stop is not read |
| EscapeLaws.WhereItStands | src/client.rs:185-268 | at line start exactly after CR or LF, and holding a tilde exactly when it was typed there |
| EscapeLaws.PlainTyping | src/client.rs:191-209 | typing without a tilde at line start goes on as it is |
| EscapeLaws.ReadingRuns | src/client.rs:185-268 | the converse of `RunReads`: every reading in the grammar is what the machine does with its bytes |
| Escapes.EscapeProcessor.Process | src/client.rs:185-269 | flattened, the actions of one call are the machine's items, and no data action is empty |
| Escapes.EscapeProcessor.ProcessByte | src/client.rs:189-260 | one byte with its buffer: an action is preceded by what was buffered |
| Escapes.EscapeProcessor.ProcessEscape | src/client.rs:211-258 | the six control bytes, `~~`, and any other byte passed on with its tilde |
| SlidingWindow.AdmitKeepsBound | src/client.rs:101-112 | allowing by the rule keeps every window bounded |
| SlidingWindow.WindowBound | src/client.rs:89-112 | over any non-decreasing check times, no closed interval of the window's length holds more than the maximum of allowed actions |
| SlidingWindow.AdmitsExactly | src/client.rs:100-110 | a check is allowed exactly while fewer than the maximum of the allowed actions lie in the closed window ending now |
| SlidingWindow.RetainedCount | src/client.rs:101-112 | what left the deque is too old to count |
| RateLimits.RateLimiter.Check | src/client.rs:101-112 | a check is refused exactly when the maximum was already allowed in the window ending now |
| RateLimits.RateLimiter.DropExpired | src/client.rs:103-107 | expired times leave from the front and nothing else does |
| RateLimits.RateLimiter.NeverTooMany | src/client.rs:89-112 | the bound holds at every moment of every run of the limiter |
| Endian.FromToBE | src/protocol.rs:603-640 | a big-endian number that fits its width reads back |
| Endian.ToFromBE | src/protocol.rs:603-640 | any bytes are the encoding of the number they read as |
| Endian.FromToLE | src/lib.rs:339-345 | the same for the pipe's little-endian numbers |
| Utf8.LossyExactly | src/protocol.rs:1214-1219 | lossy decoding loses nothing exactly when the bytes were valid UTF-8 |
| Utf8.LossyCut | src/lib.rs:358-401 | cutting valid text keeps the characters before the cut and turns one cut in two into a replacement character |
| Utf8.CharactersExactly | src/lib.rs:394-401 | the characters are the encodings of the code points up to U+10FFFF without the surrogates (section 3 of RFC 3629) |
| Utf8.BrokenExactly | src/lib.rs:394-401 | a replacement character stands for the longest beginning of a character there is, or for one byte |
| Utf8.SpacesExactly | src/lib.rs:394-401 | white space is exactly the code points with that Unicode property |
| Utf8.TrimExactly | src/lib.rs:394-401 | trimming leaves trimmed text and changes only text that was not |
| FrameRoundTrip.ErrorCodeRoundTrip | src/protocol.rs:141-170 | an error code survives the wire exactly when it is not one of `Unknown(1)` to `Unknown(8)` |
| FrameWire.ErrorNumbers | src/protocol.rs:141-170 | the eight named errors are 1 to 8, both ways, and every other number is kept as it is |
| FrameRoundTrip.EntrySurvives | src/protocol.rs:545-587 | one session entry reads back, and `entry_encoded_len` is what is written |
| FrameRoundTrip.ListSurvives | src/protocol.rs:693-843 | counted records that each read back with anything after them read back as a list |
| FrameRoundTrip.EnvSurvives | src/protocol.rs:520-531 | an environment frame's body has the summed length and decodes to its pairs |
| FrameRoundTrip.SessionInfoSurvives | src/protocol.rs:533-570 | a session list's body has the summed length and decodes to its entries |
| FrameRoundTrip.NewSessionSurvives | src/protocol.rs:1233-1432 | the creation request with its three trailing optional fields reads back |
| FrameRoundTrip.AttachSurvives | src/protocol.rs:1233-1432 | the attach request with its trailing optional numbers and flag reads back |
| FrameRoundTrip.PayloadRoundTrip | src/protocol.rs:849-1432 | for all 51 frames the header length is what is written and the payload decodes to the frame |
| FrameRoundTrip.FrameRoundTrips | src/protocol.rs:849-1432 | a frame is read back whole, leaving exactly what followed |
| FrameRoundTrip.CutFrameNeedsMore | src/protocol.rs:849-872 | a strict prefix of a frame is not an error and consumes nothing |
| FrameRoundTrip.DecodedIsStable | src/protocol.rs:849-872 | bytes arriving later never change a frame or an error already decided |
| FrameRoundTrip.ChunksDoNotMatter | src/protocol.rs:849-872 | on any bytes, and for any payload decoder, chunking changes neither the frames nor whether the stream fails |
| FrameRoundTrip.StreamRoundTrip | src/protocol.rs:849-1432 | any sendable frames, encoded and delivered in any chunks, arrive as sent with nothing left over |
| FrameRoundTrip.LongStringIsLost | src/protocol.rs:520-531 | a string of 65536 bytes is read as empty and its bytes as what follows |
| FrameExact.DecodedFits | src/protocol.rs:849-1227 | whatever bytes arrive, a decoded frame has every field within its type, every string valid and short enough for its prefix |
| FrameExact.PayloadSize | src/protocol.rs:496-587 | every frame, sendable or not, is written with as many bytes as its length was computed for |
| FrameExact.FrameRoundTripsExactly | src/protocol.rs:849-1432 | a frame comes back as itself if and only if its fields fit and it is within the size limit |
| FrameWire.TypeNumbers | src/protocol.rs:5-72 | the number of each of the 51 frames, as `docs/wire-protocol.md` lists them |
| FrameWire.WireFormat | src/protocol.rs:1230-1432 | every frame is written as a table of its own says, which spells out each number byte by byte: its number, the length of its fields, and its fields in order |
| FrameWire.WireIsRead | src/protocol.rs:849-1228 | and those bytes are read as that frame, whatever follows |
| FramePartial.ReadUnderItsNumber | src/protocol.rs:879-1228 | a payload is only read as a frame of its own number, and never under a number that stands for none |
| FramePartial.TooShort | src/protocol.rs:879-1228 | the least payload of every frame; anything shorter is refused |
| FramePartial.MoreIsTolerated | src/protocol.rs:885-980 | every frame of fixed fields is read from a payload with bytes to spare |
| FramePartial.HelloWithoutDevice | src/protocol.rs:894-901 | a greeting without a whole device id is read with device 0 |
| FramePartial.AttachCut | src/protocol.rs:1099-1157 | an attach cut anywhere in its 22 later bytes, or with bytes to spare: each later field is read if it is whole and 0 or off otherwise, and any byte but 0 is on |
| FramePartial.CreationCut | src/protocol.rs:1029-1098 | a creation request cut anywhere in its later fields: no client, no linger, or a refusal in the middle of the client's name or below 12 bytes |
| FramePartial.EntryCut | src/protocol.rs:742-842 | a session entry cut anywhere in its 18 later bytes, or with bytes to spare |
| FramePartial.EnvThenMore | src/protocol.rs:693-724 | an environment ends with its last pair, whatever follows |
| FramePartial.SessionInfoThenMore | src/protocol.rs:726-842 | a session list ends with its last entry, whatever follows |
| FrameLoops.WriteEnv | src/protocol.rs:520-531 | the length loop and the append loop write the frame's encoding |
| FrameLoops.WriteSessionInfo | src/protocol.rs:533-570 | the same for the session list |
| FrameLoops.SumEntries | src/protocol.rs:533-535 | the summed entry lengths |
| FrameLoops.ReadEnv | src/protocol.rs:693-724 | the counted loop reads what the recursive reader says, errors included |
| FrameLoops.ReadSessionInfo | src/protocol.rs:726-843 | the same for the session list |
| FrameLoops.ReadAll | src/protocol.rs:693-843 | the counted loop stops at the first bad record |
| FrameCodecs.FrameCodec.WriteFrame | src/protocol.rs:1233-1432 | encoding appends the frame's bytes to the buffer |
| FrameCodecs.FrameCodec.ReadFrame | src/protocol.rs:849-880 | decoding takes one complete frame off the front, leaves an incomplete or oversized one alone, and consumes one whose payload is invalid |
| FrameCodecs.FrameCodec.Feed | src/protocol.rs:849-880 | a chunk yields every frame it completes, in order |
| ReadyPipe.RoundTrip | src/lib.rs:339-405 | warnings then ready read back as those warnings, cut at 65535 bytes and rendered, in order, and that pid, for any rendering of text |
| ReadyPipe.RecordBytes | src/lib.rs:317-365 | both records byte by byte |
| ReadyPipe.OtherBytesFail | src/lib.rs:369-405 | after any warnings, another first byte makes the rest the text of a failure |
| ReadyPipe.StrictPrefixCrashes | src/lib.rs:369-405 | every strict prefix is a crash after a prefix of the warnings |
| ReadyPipe.ReadyOnlyFromRecords | src/lib.rs:369-405 | only a stream that begins with warning records, whose renderings are the warnings shown, and a ready record is read as ready |
| ReadyPipe.UnchangedExactly | src/lib.rs:358-401 | exactly which messages are shown as they were written |
| ReadyPipe.WarningsArriveExactly | src/lib.rs:339-405 | the parent gets the very warnings that were written if and only if each of them is one of those |
| ReadyPipe.ReadPipe | src/lib.rs:369-405 | the reading loop computes the recursive reading |
| LockProtocol.RunKeepsInv | src/connect.rs:1642-1654 | in every interleaving no inode is locked twice and a known identity is the inode held |
| LockProtocol.OneOwner | src/connect.rs:1642-1713 | at most one live supervisor's lock is the one at the path |
| LockProtocol.HarmExactly | src/connect.rs:1748-1762 | a step removes another process's lock exactly when it is an unchecked unlink of a path whose lock is observably held and whose inode is not its own |
| LockProtocol.GuardsNeverHarm | src/connect.rs:1976-2028 | guard drops, and bails with a known identity, never do, external deletions included |
| LockProtocol.ProcessesNeverHarm | src/connect.rs:1642-1762 | without external deletions no interleaving ever removes a lock somebody else holds |
| LockProtocol.RunningLockObservable | src/connect.rs:1658-1667 | a running supervisor's lock stays observable at the path until its own cleanup |
| LockProtocol.AtomicRunsNeverHarm | src/connect.rs:1748-1762 | with external deletions at any time, still no step harms when cleanup is one step and every `fstat` succeeded |
| LockProtocol.SplitCleanupHarms | src/connect.rs:1748-1762 | the run showing that cleanup's acquire and unlink must not be split |
| LockProtocol.UnknownIdentityHarms | src/connect.rs:2047-2078 | the run showing that a bail guard without an identity can remove a fresh lock |
| LockProtocol.ReleaseFirstLosesALock | src/connect.rs:1976-2028 | releasing before unlinking lets another supervisor's lock be lost; holding on prevents the acquire |
| LockLaws.AcquirePossible | src/connect.rs:1642-1667 | the lock can be taken exactly while nobody's is observable at the path |
| LockLaws.AcquireTakes | src/connect.rs:1642-1654 | once taken it is observable, on the file that was there or on a new one |
| LockLaws.OneAtATime | src/connect.rs:1642-1667 | and then nobody takes another |
| LockLaws.PathAfter | src/connect.rs:1711-1762 | the path after every step: a guard removes the file its own lock is on, one that does not know its file any file, a cleaner whatever is there |
| LockLaws.LocksAfter | src/connect.rs:1642-1762 | every lock after every step: let go only by its own process's release or crash |
| LockLaws.PhaseAfter | src/connect.rs:1976-2028 | a process lets go of its lock only after it has dealt with the file |
| LockLaws.ReleaseFrees | src/connect.rs:1976-2028 | a release frees the inode |
| LockLaws.SupervisorsLife | src/connect.rs:1976-2078 | an undisturbed supervisor's whole life leaves no file and every other process as it was |
| Backoff.RecoveryNeedsOutage | src/connect.rs:668-719 | a wait ends as recovered only after an outage was seen |
| Backoff.RoundsClimb | src/connect.rs:733-843 | each wait doubles the one before, and only a network recovery restarts the climb |
| Backoff.ScheduleHolds | src/connect.rs:733-843 | between recoveries the k-th wait is the capped doubling schedule, however many wakes and kicks cut waits short |
| Backoff.ScheduleRestarts | src/connect.rs:733-843 | after a recovery the schedule starts from one second |
| Backoff.EpisodeInRange | src/connect.rs:529-550 | every wait of an episode is 0 or within 1 s to 60 s |
| Supervision.BackoffBounded | src/connect.rs:855-1071 | over every run the backoff stays within 1 s to 60 s |
| Supervision.KillsAreJustified | src/connect.rs:907-1069 | over every run ssh is killed if and only if: shutdown, lost lock, missing socket file, a second failed tick probe of this child with no successful probe of either kind between, or a failed probe past spawn grace after an outage that no successful probe followed |
| Supervision.SecondStrikeKills | src/connect.rs:461-463 | a failed tick kills if and only if one was already standing |
| Supervision.NewChildStartsClean | src/connect.rs:855-1071 | no failure count, outage mark or armed probe carries over to a new child |
| Supervision.KilledChildRespawnsAtOnce | src/connect.rs:733-760 | a child we killed is replaced without waiting, then the schedule climbs |
| SupervisionLaws.WaitEndsExactly | src/connect.rs:668-719 | a wait ends the way of the first event that ends it: a kick, a clock jump of more than 5 s, a recovery after an outage, or shutdown |
| SupervisionLaws.WaitElapses | src/connect.rs:668-719 | and elapses when none does |
| SupervisionLaws.EpisodeFindsChild | src/connect.rs:733-843 | an episode ends with a child exactly when some attempt is reached, with the lock ours and no shutdown up to there, that finds the remote ready and ssh starting |
| SupervisionLaws.StopsExactly | src/connect.rs:504-523 | over every run the monitor stops at exactly these events: shutdown, a lost lock, a wait that failed or was cancelled, an exit code other than none, 255 and 128 to 159, or an episode without a child |
| SupervisionLaws.KillRemembered | src/connect.rs:855-1071 | it knows exactly whether it killed the current child |
| SupervisionLaws.ProbeArmedExactly | src/connect.rs:960-1020 | the debounced probe is armed exactly by a path change since the last probe or child |
| SupervisionLaws.FirstWaitExactly | src/connect.rs:529-543 | the first wait of an episode: 0 for a child we killed, 1 s after an uptime of at least 30 s, else the standing backoff, and not served after a clock jump |
| SupervisionLaws.EpisodeBackoff | src/connect.rs:733-843 | what an episode leaves standing: twice the last wait within 2 s to 60 s, 2 s after a recovery, and the wait itself when shutdown cut it short |
| SupervisionLaws.OnlyExitsMoveBackoff | src/connect.rs:855-1071 | no other event touches the backoff |
| Supervisors.TunnelMonitor.Handle | src/connect.rs:855-1071 | one event of the in-place monitor is the model's step |
| Supervisors.TunnelMonitor.RespawnTunnel | src/connect.rs:733-843 | the respawn loop computes the episode's rounds, result and backoff |
| Supervisors.TunnelMonitor.RespawnRound | src/connect.rs:733-843 | one wait and the attempt after it |
| SessionTable.ResolutionIsOrderFree | src/daemon.rs:168-190 | with unique names, resolution does not depend on the map's iteration order |
| SessionTable.Resolve | src/daemon.rs:168-190 | the answer is one that walking the map may give, and is in the table |
| SessionRuns.RunKeepsTable | src/daemon.rs:899-1262 | in every reachable table, counter wraps included, names are unique, non-empty, not numeric, not `-`, every id is its session's creation number modulo 2^32, and fewer than 2^32 creations have followed it |
| SessionRuns.IdsBelowNext | src/daemon.rs:917-964 | until the counter comes round every id is below the next one |
| SessionRuns.CreationTouchesNextId | src/daemon.rs:899-1006 | a creation touches the entry under the next id and no other, and a refused one nothing |
| SessionRuns.CreationOverwritesExactly | src/daemon.rs:917-964 | an accepted creation costs a session its place if and only if the next id is still in use |
| SessionRuns.CreationIsClean | src/daemon.rs:899-1006 | the next id is free for a daemon's first 2^32 creations; with a free id a creation adds one entry, and one whose hand-off fails leaves the reaped table and the last-attached mark |
| SessionRuns.WrappedCreationOverwrites | src/daemon.rs:917-964 | a run from the start in which creation 2^32 + 1 replaces the live first session and its client's reconnect lands in the other one |
| SessionRuns.CreatedResolves | src/daemon.rs:899-1006 | a created session is reached by its name, by its id and as the last attached one |
| SessionRuns.RenamedResolves | src/daemon.rs:1209-1238 | a renamed session answers to its new name and not to its old one, all else unchanged; a refused rename changes nothing |
| SessionRuns.KilledIsGone | src/daemon.rs:1182-1193 | a killed target resolves to nothing afterwards, however it was named, and no other session is touched |
| SessionRuns.IdResolves | src/daemon.rs:168-227 | a printed id resolves to that id or to nothing, whatever sessions are called |
| SessionRuns.ReconnectIsRight | src/client.rs:2556-2623 | after any run of creations, renames, kills, reaps and restarts, a reconnect by id reaches the client's own session or is refused if and only if the daemon was restarted, fewer than 2^32 creations have followed that session's, or its id is out of use |
| SessionRuns.AckMakesOwner | src/daemon.rs:1107-1148 | an acknowledged attach makes its device the owner |
| SessionRuns.DisplacedStaysOut | src/daemon.rs:1038-1148 | once displaced, a device's automatic reconnects to that session are answered `OwnerChanged` until its own acknowledged explicit attach to it, counter wraps included |
| SessionRuns.UnackedChangesNothing | src/daemon.rs:1107-1148 | an attach that is not acknowledged changes no published owner |
| SessionRuns.UnforcedNeverDisplaces | src/daemon.rs:1060-1085 | an unforced attach never displaces an attached client |
| SessionRuns.ReconnectChecksOwner | src/daemon.rs:1038-1060 | the owner check refuses every foreign automatic reconnect except that of device 0, which only a peer with a zero or short Hello has |
| SessionRuns.LingerSpares | src/daemon.rs:101-124 | the linger reaper takes an entry exactly when it is unattached, has a linger, and nobody was present for that long |
| SessionLaws.MeansExactly | src/daemon.rs:168-198 | a target resolves to an entry exactly when it means it: `-` the last attached one, a name its bearer, and otherwise a number its id, finished entries aside |
| SessionLaws.AttachAckExactly | src/daemon.rs:1007-1151 | over every reachable table an attach is acknowledged for an id exactly when its target reaches that entry, it is no probe, its token is 0 or its device the owner, the entry is detached or the attach forced, metadata is there or comes, and the send succeeds |
| SessionLaws.AttachRefusalsExactly | src/daemon.rs:1007-1151 | each other reply to an attach that reaches an entry, with its own condition |
| SessionLaws.AttachFindsNothing | src/daemon.rs:1007-1028 | an attach that reaches nothing is answered `NoSuchSession`, and only an entry with a dead task goes |
| SessionLaws.AttachLeaves | src/daemon.rs:1007-1151 | what each reply to an attach leaves: a new owner who is present, metadata that came in the meantime, or nothing but the reaping |
| SessionLaws.NewRepliesExactly | src/daemon.rs:900-996 | which reply every creation gets, from the name, the table and the hand-off |
| SessionLaws.NewLeaves | src/daemon.rs:900-1006 | and what it leaves: the counters, the new entry or none, every other entry as it was |
| SessionLaws.TargetMissing | src/daemon.rs:237-262 | kill, rename and linger answer `NoSuchSession` to a target that reaches nothing |
| SessionLaws.KillExactly | src/daemon.rs:1182-1194 | a kill takes exactly the entry its target reaches |
| SessionLaws.RenameExactly | src/daemon.rs:1209-1238 | each reply to a rename with its condition, and the one name it changes |
| SessionLaws.SetLingerExactly | src/daemon.rs:1239-1262 | the linger is set on published metadata and on nothing else |
| SessionLaws.ReapLeaves | src/daemon.rs:96-166 | the reaper's tick takes exactly the finished entries and those whose linger ran out |
| Daemons.ControlDaemon.ReapSessions | src/daemon.rs:138-165 | exactly the finished entries go |
| Daemons.ControlDaemon.ReapLinger | src/daemon.rs:101-124 | exactly the expired entries go |
| Daemons.ControlDaemon.ResolveSession | src/daemon.rs:168-190 | walking the map in any order gives the one answer |
| Daemons.ControlDaemon.ValidateSessionName | src/daemon.rs:200-227 | control characters, numbers, `-` and taken names are refused, in that order |
| Daemons.ControlDaemon.ResolveLiveSession | src/daemon.rs:237-255 | a resolved entry whose task is dead is swept and not returned |
| Daemons.ControlDaemon.OnNewSession | src/daemon.rs:899-1006 | creation with its hand-off, and the table invariant kept |
| Daemons.ControlDaemon.OnAttach | src/daemon.rs:1007-1161 | the attach checks in order and the hand-off |
| Daemons.ControlDaemon.HandOff | src/daemon.rs:1086-1148 | ownership only after the acknowledgement |
| Daemons.ControlDaemon.OnKill | src/daemon.rs:1182-1193 | the resolved session goes and no other |
| Daemons.ControlDaemon.OnRename | src/daemon.rs:1209-1238 | the resolved session gets a valid free name or nothing changes |
| Daemons.ControlDaemon.OnSetLinger | src/daemon.rs:1239-1262 | the resolved session's linger and nothing else |
| ForwardModel.ClientIds | src/client.rs:850-884 | client ids are even, and two draws collide exactly when they are a multiple of 2^31 apart |
| ForwardModel.RunKeepsTable | src/client.rs:1354-1738 | over every run, counter wraps included, each channel's forward is registered; pending local forwards are registered and unwatched as long as no request is sent under an id that still waits or is watched |
| ForwardModel.TableAlwaysConsistent | src/client.rs:850-884 | from the empty table each channel's forward is always registered, and before the counter comes round so are the pending forwards |
| ForwardModel.StepKeepsPendingExactly | src/client.rs:1581-1738 | one step keeps pending forwards registered and unwatched if and only if it is no request sent under an id that still waits or is watched |
| ForwardModel.NoClashBeforeWrap | src/client.rs:850-884 | before the counter comes round no request is |
| ForwardModel.WrappedRequestBreaksPending | src/client.rs:1581-1738 | a run in which a forward waits while 2^31 ids are drawn and ends up waiting unregistered |
| ForwardModel.StopRemovesExactly | src/client.rs:1431-1451 | stopping a forward removes all and only its channels |
| ForwardModel.GoneForever | src/client.rs:1529-1579 | late connections, data and frames never bring a stopped forward back, for as long as its id is not drawn again |
| ForwardModel.EnteredStep | src/client.rs:1359-1579 | one event that does not draw the id again takes a client channel out of the table exactly when it closes it or stops its forward |
| ForwardModel.EnteredRun | src/client.rs:1359-1551 | while the server's channels are odd, a client channel keeps its forward until it is closed, its forward stops or its id is drawn again, counter wraps included |
| ForwardModel.ServerOpenKeepsClientChannels | src/client.rs:1359-1551 | over every run before counter wrap in which the server's channels are odd, a connection the client accepted keeps its channel and forward until it is closed or its forward stops |
| ForwardLaws.ServerOpenExactly | src/client.rs:1359-1400 | a server-opened connection becomes a channel of its forward exactly when that was asked for and the connect succeeded; nothing else changes |
| ForwardLaws.ChannelsExactly | src/client.rs:1354-1581 | every channel after every event: opened, closed, or as it was |
| ForwardLaws.ChannelStays | src/client.rs:1354-1581 | over every run a channel, the server's or the client's, stays until it is closed, its forward stops, or its id is opened anew |
| ForwardLaws.ForwardsExactly | src/client.rs:1420-1451 | every forward after every event: target port, listening and keepalive |
| ForwardLaws.InitiatedExactly | src/client.rs:1678-1683 | every local forward asked for, with its port |
| ForwardLaws.PendingExactly | src/client.rs:1420-1451 | what the server still owes an answer |
| ForwardLaws.WatchedExactly | src/client.rs:1712-1738 | every watch on a forward's process: started by the confirmation or the sent remote request, ended with the process |
| ForwardLaws.AnnouncedExactly | src/client.rs:1609-1655 | every connection taken and still to be announced |
| ForwardLaws.LocalForwardWorks | src/client.rs:1359-1430 | a local forward from request to relayed connection |
| ForwardLaws.RemoteForwardWorks | src/client.rs:1529-1548 | a remote forward from request to relayed connection |
| PortForwarding.ClientPortForwardTable.Handle | src/client.rs:1354-1579 | one frame, event or request on the in-place table is the model's step |
| PortForwarding.ClientPortForwardTable.FwdRequest | src/client.rs:1581-1710 | what a request registers, with each early exit |
| PortForwarding.ClientPortForwardTable.StartPfKeepalive | src/client.rs:1712-1738 | the entry is made if missing and marked watched |

## Left out

- Sockets, tokio tasks, process spawning, ssh command lines, signals, termios and fcntl: only the events they deliver are inputs of the steps.
- The session task in `src/server.rs` is not part of this model; its effects on attachment, heartbeats and metadata are environment steps (`ETask`) limited by `TaskMay`.
- Unicode width tables and UTF-8 decoding in `src/line_shadow.rs`: the width of a completed character is an arbitrary function of its bytes.
- Debug builds panic where a release build wraps; the wrap is modelled.
- Idempotence of the query filter does not hold and is not claimed: `ESC [ ESC [ c c` filters to `ESC [ c`.
- The finer interleaving of opening and locking in `try_acquire_lock`, and ownership of the `.sock` file during a respawn: the source re-checks no identity there, so opening and locking are one step and the claims are about the lock file.
- ShadowRestore.RestoredTerminalFollowsExactly: leaves out a source in the middle of a character, where the answer depends on the width tables, and one-column terminals, where some differences can no longer show.
- ForwardModel.ServerOpenKeepsClientChannels: speaks of runs before the client's id counter wraps; `EnteredRun` has the condition for any run.
- Supervision.NewChildStartsClean: the time of the last healthy probe is folded into the `ready` input of an attempt; an episode whose list of attempts runs out counts as a monitor that stopped.
- `Tail`, `SendFile`, `ListSessions`, `KillServer` dispatch and the version gate: they only read the table or answer.
- `AltScreenTracker`, `AltScreenState`, `PersistenceGate`, `cap_backoff` and `next_reconnect_delay`: easy members beside the ones proved.
- Agent, clipboard and tunnel channels of the client relay, file transfer, configuration, user interface, logging, completion and refresh messages.
