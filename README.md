# putv core, modelled in Dafny

putv is an embedded audio daemon. It plays tracks from a pluggable catalog through a decoder, filter, encoder and sink pipeline, and command front ends control it. This project models four sequential pieces of putv and proves properties about them. Threads, clocks, the filesystem and the codec pipeline are abstracted away.

- **Player** (`player.dfy`, module `Player`) covers the playback state store of `src/player.c`:
  - `player_state`, the transition rule: a query or a request for the current state changes nothing; any other request sets the state; a change to Pause notifies every observer.
  - The observer registry of `player_onchange` and `player_removeevent`: a prepend-only list whose ids are head id + 1.
  - `player_change`, `player_next`, `player_mediaid` and the non-blocking guard of `player_waiton`.
  - The sequential decisions of the `player_run` loop:
    - While stopped, it swaps in the pending catalog or parks.
    - In each track cycle the catalog's `play` builds the next decoder/source pair while the previous binding is still installed, so two pairs exist until the previous one is torn down. Only then is the new pair installed, so at most one binding is ever installed and at most two pairs ever exist.
    - After every cycle it notifies every observer.
  - `PlayerCtx` is a class whose fields the methods update. Callback invocations, catalog calls and binding installs and teardowns are recorded in ghost logs (`fired`, `calls`, `bindings`). The arbitrary code they would run is not called.
- **Heartbeat** (`heartbeat.dfy`, module `Heartbeat`) covers the pacer of `src/heartbeat_samples.c`:
  - the sample-size table;
  - the millisecond count of a sample batch;
  - the deadline advance with one carry, both as written (carry only above one second) and with the carry at one second, chosen by a `Carry` parameter;
  - the lexicographic lateness test and the borrow subtraction;
  - the two exits of `heartbeat_wait` and what each leaves in the clock and the sample count, plus, as written, the sleep that never returns on a deadline of one full second of nanoseconds.
  - Clock readings are parameters.
- **MediaDir** (`media_dir.dfy`, module `MediaDir`) covers the directory catalog of `src/media_dir.c`:
  - `utils_getmime`;
  - the URL-to-root-path rule;
  - `_find_mediaid`;
  - the depth-first numbering walk `_find` over a directory tree given as a value (each listing already sorted, as `scandir` with `alphasort` returns it);
  - the iterator chain it leaves open (one frame per open directory);
  - the `media_*` operations, with `MediaCtx` as a class.
- **CmdsLine** (`cmds_line.dfy`, module `CmdsLine`) covers the console front end of `src/cmds_line.c`:
  - the scan loop that picks a command and an argument from one read of standard input;
  - the cut of the argument at its newline;
  - the "did the request take" results of `method_play`, `method_pause` and `method_stop`;
  - the line printed on a state change;
  - the dispatch of a selected command to the player or the catalog.
- `wrappers.dfy` holds the `Option` type.

## How the models relate to the source

- **Walk counting.** The walk `Visit` (and the method `Walk` proved equal to it) takes a `Counting` parameter:
  - `AsWritten` follows `_find` exactly: `ret` is not reset between entries, so a non-media regular file met after a positive result also takes a media id; after a result of -1 (at the start of a directory's walk, or after a subdirectory that offered nothing) it takes none (`src/media_dir.c:185` and `:258-259`).
  - `MediaOnly` numbers media files only.
  The catalog operations of `MediaCtx` use `MediaOnly`; see Findings. Under either counting a search for an id stops on the file a listing gives that id (`MediaDir.FindAgreesWithListing`), so as written a media file is found under the number a listing shows for it, and an id that only a non-media file took is never found.
- **Resuming from a deep frame.** When a walk resumes in the deepest frame of a chain and that frame runs out, only that frame is closed. The chain is left on the parent's directory entry, not on a file (`MediaDir.ResumeClosesOneFrame`). This is modelled as written.
- **Keyword scan.** Keywords are found anywhere in the line, even inside words, and a later keyword overrides an earlier one at the position the earlier one left. The character right after a keyword is always skipped, even a newline. All of this is modelled as written.
- **Lateness boundary.** A beat is late only when now > deadline (`src/heartbeat_samples.c:104-105`); a reading equal to the deadline is on time, and the model follows that.
- **Sample sizes.** The code gives a sample size of 2 bytes to the 24- and 32-bit formats as well (`src/heartbeat_samples.c:64-71`). The model keeps that.
- **Removing an observer.** `player_removeevent` reads the head's id before any test (`src/player.c:143-144`), so `PlayerCtx.RemoveEvent` requires a non-empty registry.

## Model

| member | source | states |
|---|---|---|
| Player.Transition | src/player.c:178-196 | A query leaves the state unchanged; any other request yields the requested state; the state changes exactly when the request is not a query and differs from the current state |
| Player.FanOut | src/player.c:184-191 | One notification per registered observer, head to tail (newest first), each with the given state |
| Player.NextId | src/player.c:165-169 | The id of a new observer is head id + 1, or 0 for an empty registry; with descending ids it exceeds every registered id |
| Player.Unlink | src/player.c:141-161 | An absent id leaves the registry unchanged; otherwise exactly the first observer with that id is removed and the others keep their order |
| Player.FirstWithId | src/player.c:141-161 | The position the removal walk stops at: the first observer carrying the id, with none before it, or none when no observer carries it |
| Player.RegisterKeepsDescending | src/player.c:163-176 | Prepending an observer with the next id keeps ids strictly descending from head to tail |
| Player.ConsecutiveIds | src/player.c:165-169 | Two registrations in a row get consecutive ids |
| Player.UnlinkKeepsDescending | src/player.c:141-161 | Removal keeps ids strictly descending and leaves no observer with the removed id |
| Player.RemovedHeadIdIsReissued | src/player.c:141-176 | After the newest observer is removed, the next registration reuses its id |
| Player.BoundsOnPrefixes | src/player.c:292-333 | Along a binding history kept within bounds, after every step zero or one binding is installed and at most two decoder/source pairs exist |
| Player.ExtendHistory | src/player.c:295-326 | A step that keeps both counts within bounds extends such a history, and each count changes by exactly that step's effect |
| Player.CountsAppend | src/player.c:292-333 | The installed and existing counts of two histories in sequence add up |
| Player.CycleOverlap | src/player.c:236-237 | The next track's pair, built inside the catalog's play (player.c:295), exists beside the previous binding until its teardown at player.c:299-302, so one cycle can hold two pairs; after the cycle only the kept binding is left, installed, and only when the player runs and the track opened |
| Player.PlayedInstalls | src/player.c:292-315 | Over a run of cycles started while not stopped, the installed tracks are exactly the opened ones, in order |
| Player.PlayerCtx.constructor | src/player.c:85-93 | player_init: stopped, with no catalog, no observer, no binding and empty logs |
| Player.PlayerCtx.ChangeMedia | src/player.c:95-116 | A built catalog becomes the pending one and the player stops; it becomes the active one only when there was none; with no catalog nothing changes; returns 0 |
| Player.PlayerCtx.Next | src/player.c:118-125 | With an active catalog, which must have a next since line 122 calls it unchecked, calls its next and sets Change; without one, nothing changes; no observer is notified |
| Player.PlayerCtx.RemoveEvent | src/player.c:141-161 | The registry becomes the unlinked one; no observer with that id remains; ids stay descending |
| Player.PlayerCtx.OnChange | src/player.c:163-176 | Prepends an observer with id NextId, returns that id, and the id exceeds every earlier id |
| Player.PlayerCtx.FireAll | src/player.c:186-191 | The notification log grows by exactly one notification per observer, in registry order, with the current state |
| Player.PlayerCtx.RequestState | src/player.c:178-196 | The new state is Transition(old state, request) and is returned; observers are notified exactly when the request changes the state to Pause |
| Player.PlayerCtx.MediaId | src/player.c:198-205 | The installed binding's track id, or -1 without a binding |
| Player.PlayerCtx.WaitOn | src/player.c:207-220 | Returns -1 at once in Stop, Change or Error; otherwise blocks while the state equals the argument, and returns 0 when it differs |
| Player.PlayerCtx.StopPhase | src/player.c:267-285 | Parks exactly when the pending catalog is the active one; otherwise destroys the old catalog (if any), makes the pending one active and sets Change |
| Player.PlayerCtx.ReleaseCurrent | src/player.c:296-303 | Tears down the installed binding, if any, and records the teardown; any freshly built pair stays pending |
| Player.PlayerCtx.BuildPair | src/player.c:228-252 | The callback answers 0 exactly when the source was built, and then the build of the new pair is logged and one more pair exists; otherwise it answers -1 and nothing is logged; the installed binding is untouched, so the new pair is pending beside it |
| Player.PlayerCtx.OpenCycle | src/player.c:294-303 | Calls the catalog's play, which builds the next pair, then tears down the previous binding: the log holds the build before the teardown |
| Player.PlayerCtx.InstallBinding | src/player.c:306 | The pending pair becomes the installed binding, tagged with its track id, and exactly one binding is installed again |
| Player.PlayerCtx.StartTrack | src/player.c:304-315 | Installs the new binding, sets Play, and calls the catalog's next, or end when it has no next |
| Player.PlayerCtx.HaltTrack | src/player.c:316-326 | Installs and at once frees a prepared binding, or does nothing with none, and stops, notifying no observer |
| Player.PlayerCtx.TrackCycle | src/player.c:294-332 | The catalog sees play, then next or end exactly when a track started; the binding log is the build of the new pair, the teardown of the previous binding, then the install of the new one (and its teardown when stopped); the state is Play with the new binding only when not stopped and opened, else Stop with none; then every observer is notified of that state |
| Player.PlayerCtx.SwitchTrack | src/player.c:294-325 | The part of a track cycle before the fan-out: the same catalog calls, binding log, state and binding as TrackCycle, with no observer notified yet |
| Player.PlayerCtx.RunningCycle | src/player.c:294-333 | One cycle while running keeps the run tracked: the binding, the binding log and the catalog calls grow by that cycle's, and the notifications by one Play fan-out, or a Stop fan-out when the track did not open |
| Player.PlayerCtx.PlayWhileRunning | src/player.c:292-333 | The do-while loop started while not stopped runs Opened + 1 cycles when a track fails, ending in Stop with no binding, else one per outcome; notifications, binding log and catalog calls are exactly the cycles' ones |
| Player.PlayerCtx.LoopStep | src/player.c:292-333 | One pass of the loop body keeps the loop's invariant: cycle count against the opened prefix, state and binding, the notices so far, and the binding log and catalog calls of exactly the cycles run |
| Player.PlayerCtx.PlayTracks | src/player.c:292-333 | Started while not stopped, every opened track plays in turn and the first failure stops the player after Opened + 1 cycles: the observers see one Play fan-out per started track and then one Stop fan-out, the binding log is that of the cycles played (whose installs are the opened tracks in order, by PlayedInstalls), and the catalog sees play then next or end per cycle; started stopped, one cycle frees the prepared pair and stops |
| Player.PlayerCtx.PlayCatalog | src/player.c:289-334 | The catalog's next before the loop when it has one, the track loop, and end when the loop stopped, with every log stated |
| Player.PlayerCtx.EnterPass | src/player.c:264-291 | Error exits; stopped with the pending catalog already active parks without any call; stopped with a new catalog destroys the old one, if any, and swaps; no catalog exits; otherwise the track loop is entered |
| Player.PlayerCtx.RunPass | src/player.c:264-335 | Error exits at once; stopped with nothing to swap parks; otherwise swaps in the new catalog and runs the track loop, ending in Ended(Opened + 1) or still Playing; the notifications, binding log and catalog calls are those of the cycles run, plus destroy, next and end around them; when no loop runs, no observer is notified, no binding changes and only the destroy of a swap is called |
| Heartbeat.SampleSize | src/heartbeat_samples.c:58-75 | 2 for every listed PCM format, 24- and 32-bit included; 4 exactly for any other format |
| Heartbeat.Pacer.constructor | src/heartbeat_samples.c:54-78 | Stores the sample rate and channel count as given, the sample size from the table, and an unset clock |
| Heartbeat.Msec | src/heartbeat_samples.c:91 | The whole milliseconds the samples last: the floor of nsamples*1000/samplerate |
| Heartbeat.Advance | src/heartbeat_samples.c:94-100 | The advance as written adds exactly msec milliseconds to the instant; from a normalized clock the nanoseconds end in [0, 1e9] |
| Heartbeat.AdvanceLeavesFullSecond | src/heartbeat_samples.c:96-100 | As written, (10 s, 0.5e9 ns) advanced by 500 ms is left at (10 s, 1e9 ns), which is not normalized |
| Heartbeat.NormalizedAdvance | src/heartbeat_samples.c:94-100 | The carry taken at one second or more: the same instant, always normalized |
| Heartbeat.AdvancesAgree | src/heartbeat_samples.c:94-100 | The two advances agree exactly when the nanoseconds do not land on exactly one second |
| Heartbeat.Late | src/heartbeat_samples.c:104-105 | On normalized times the lexicographic (sec, nsec) test is "now is strictly after the deadline" |
| Heartbeat.Behind | src/heartbeat_samples.c:107-113 | The borrow subtraction gives a normalized difference equal to now minus the deadline, positive when late |
| Heartbeat.WarnsLate | src/heartbeat_samples.c:114 | On a normalized non-negative lateness, a report means more than 10 ms late |
| Heartbeat.WholeSecondsNotReported | src/heartbeat_samples.c:114-115 | As written, a beat 1.005 s late, more than 10 ms, is not reported |
| Heartbeat.ReportsLateExactly | src/heartbeat_samples.c:107-115 | The corrected report fires exactly when the beat is more than 10 ms late, and whenever the one as written fires |
| Heartbeat.Deadline | src/heartbeat_samples.c:91-100 | The deadline is the instant of the stored clock (or of the first reading when the clock is unset) plus the batch's milliseconds, with nanoseconds in [0, 1e9]; it is normalized with the carry at one second |
| Heartbeat.Beat | src/heartbeat_samples.c:85-129 | Without a sample rate: -1 with clock and count unchanged. Otherwise: -1 exactly when now is after the deadline, leaving the resynchronised reading and the count; stuck exactly when on time with a deadline of one full second of nanoseconds, which only the carry as written produces; else 0 with the wake reading and a count of 0 |
| Heartbeat.NormalizedBeatCode | src/heartbeat_samples.c:85-129 | With the carry at one second, a beat always returns, -1 exactly when there is no sample rate or now is past the instant the samples are due |
| Heartbeat.BeatsAgree | src/heartbeat_samples.c:94-129 | The two carries give the same beat unless the advance lands on exactly one second; then the beat as written is late or stuck, never on time |
| Heartbeat.AsWrittenMissesDeadline | src/heartbeat_samples.c:94-120 | At 1000 samples/s, 500 samples after (10 s, 0.5e9 ns): as written a reading of exactly 11 s returns -1 and one of 10.9 s is stuck on (10 s, 1e9 ns); with the carry at one second both are on time |
| Heartbeat.BeatNeverRegresses | src/heartbeat_samples.c:92-128 | With monotone clock readings, a set clock never moves back |
| Heartbeat.EmptyBeat | src/heartbeat_samples.c:91-105 | A beat with no samples is on time exactly when now is not after the stored clock |
| Heartbeat.FirstBeatOneSecond | src/heartbeat_samples.c:91-100 | With the clock unset, 44100 samples at 44.1 kHz are due exactly one second after the first reading |
| Heartbeat.Samples.constructor | src/heartbeat_samples.c:87-91 | A batch holding the given number of samples |
| Heartbeat.Pacer.AdvanceClock | src/heartbeat_samples.c:94-100 | The stored clock moves on by the milliseconds with the chosen carry: Advance as written, NormalizedAdvance with the carry at one second |
| Heartbeat.Pacer.Wait | src/heartbeat_samples.c:85-129 | The result, the new clock and the new sample count are those of Beat for the old clock and count, under the chosen carry; no result exactly when the beat is stuck in the retry loop of line 120, with the refused deadline stored and the count unchanged; whenever it returns the clock is normalized |
| MediaDir.FirstIndex | src/media_dir.c:190-193 | strstr: the first position at which the pattern occurs, or none when it occurs nowhere |
| MediaDir.LastIndexOf | src/media_dir.c:88 | strrchr: the last position of the character, or none when it is absent |
| MediaDir.GetMime | src/media_dir.c:86-93 | The mp3 type exactly when the path ends with ".mp3", and none otherwise, including when there is no '.' |
| MediaDir.LastDotSuffix | src/media_dir.c:88-90 | The text from the last '.' is ".mp3" exactly when the path ends with ".mp3" |
| MediaDir.RootPath | src/media_dir.c:190-205 | Refused exactly when the URL holds "://" but no "file://"; otherwise the root path starts with '/' |
| MediaDir.PlainRoot | src/media_dir.c:198-205 | An absolute path without a scheme is its own root |
| MediaDir.FileUrlRoot | src/media_dir.c:200-205 | "file://" + p gives p with exactly one leading '/' |
| MediaDir.EmbeddedFileScheme | src/media_dir.c:190-205 | The scheme need not be a prefix: "dir/file:///music" gives "/music" |
| MediaDir.MatchMediaId | src/media_dir.c:161-175 | 0 exactly on the non-negative media id looked for, 1 for every other file |
| MediaDir.Invokes | src/media_dir.c:165-171 | The callback runs, when there is one, exactly on the file the matcher accepts, or on every file of a listing |
| MediaDir.Visit | src/media_dir.c:209-271 | The walk never lowers the running media id (its results are stated by Walk, VisitShape, MediaOnlyNumbering and FindAgreesWithListing) |
| MediaDir.MediaOnlyNumbering | src/media_dir.c:209-271 | Counting only media files, a walk from id numbers the media files it reaches id, id + 1, ... in walk order: looking for one of them stops there, having run the callback on it only; any other search walks to the end; a listing runs the callback on every file with its number |
| MediaDir.IdIndexAppend | src/media_dir.c:209-271 | The first callback with a given id in two walks in sequence is the first in the first walk, or else the first in the second |
| MediaDir.FindAgreesWithListing | src/media_dir.c:161-271 | Under either counting, a walk looking for id k from the same state as a listing stops on the first file the listing numbers k, running the callback only there; when the listing numbers none k, it walks to the end with the listing's result and final id and runs no callback |
| MediaDir.VisitShape | src/media_dir.c:209-283 | A walk stops (result 0) exactly when it leaves frames open, and those form a linked chain from the walked directory down to a media file |
| MediaDir.NextFindsFollowing | src/media_dir.c:348-354 | Counting only media files, resuming at the media file numbered id and looking for id + 1 stops on the next media file, or walks to the end when there is none |
| MediaDir.OtherFileTakesId | src/media_dir.c:248-261 | As written, listing a directory of a.mp3, b.txt and c.mp3 numbers the two mp3 files 0 and 2 |
| MediaDir.NextSkipsAfterOtherFile | src/media_dir.c:248-269 | As written, resuming at a.mp3 with id 0 and looking for id 1 walks past c.mp3 without stopping |
| MediaDir.NextStopsOnSecondMp3 | src/media_dir.c:248-269 | Counting only media files, the same resumed walk stops on c.mp3 |
| MediaDir.Walk | src/media_dir.c:209-283 | The loop over a frame's entries returns exactly what Visit specifies: result, media id, callbacks run and frames left open |
| MediaDir.Step | src/media_dir.c:216-265 | One visible entry: on result 0 the walk ends there with this entry's frame on top; otherwise it goes on from the next entry with the new result and media id |
| MediaDir.StepFile | src/media_dir.c:248-261 | One regular file: offered when it is media, with the result of _find_mediaid and the media id updated as Visit specifies |
| MediaDir.Resume | src/media_dir.c:183-284 | A URL of another scheme with no chain is refused with -1 and nothing else; a fresh walk numbers from 0; a resumed walk keeps every frame above the deepest one and never lowers the media id |
| MediaDir.ResumeLinked | src/media_dir.c:183-284 | _find keeps the iterator chain linked: every frame at one of its entries, each opening the next |
| MediaDir.ResumeClosesOneFrame | src/media_dir.c:272-282 | When the deepest of several frames runs out, only it is closed, and the chain is left on the parent's directory entry |
| MediaDir.FirstNextStopsOnFirstMedia | src/media_dir.c:183-284 | With no open chain, looking for id 0 stops on the first media file of the tree |
| MediaDir.Find | src/media_dir.c:183-284 | The imperative _find returns exactly what Resume specifies, refusing a URL of another scheme with -1 |
| MediaDir.WithLoop | src/media_dir.c:373-379 | OPTION_LOOP is set exactly when enabled, and every other option bit is kept |
| MediaDir.MediaCtx.constructor | src/media_dir.c:400-411 | A catalog at the URL, with media id -1, no options and no open chain |
| MediaDir.MediaCtx.Count | src/media_dir.c:289-292 | Always 1 |
| MediaDir.MediaCtx.Insert | src/media_dir.c:294-298 | The path becomes the URL; returns 0 |
| MediaDir.MediaCtx.Remove | src/media_dir.c:300-303 | Always -1 |
| MediaDir.MediaCtx.FindMedia | src/media_dir.c:305-314 | -1 for a URL of another scheme; 0 for an id among the media files, with the callback seeing exactly that file; otherwise non-zero, and a listing (id -1) sees every media file, numbered from 0 |
| MediaDir.MediaCtx.List | src/media_dir.c:321-329 | -1 for a URL of another scheme; otherwise every media file is offered, numbered from 0 in walk order |
| MediaDir.MediaCtx.CurrentMedia | src/media_dir.c:316-319 | media_find on the current media id: -1 for a URL of another scheme; 0 when the id is one of the media files, with the callback seeing exactly that file; otherwise non-zero, and with media id -1 (after End or at start) a listing of every media file, numbered from 0 |
| MediaDir.MediaCtx.Play | src/media_dir.c:331-346 | Returns the current media id; hands over a file exactly when the chain is open and not at a directory, with its path and MIME type |
| MediaDir.MediaCtx.Next | src/media_dir.c:348-354 | The chain and media id become those of the walk resumed for the next id, and the new media id is returned; the chain stays linked |
| MediaDir.MediaCtx.End | src/media_dir.c:356-368 | Every frame is closed, the media id is -1, returns 0 |
| MediaDir.MediaCtx.SetLoop | src/media_dir.c:373-379 | The options become WithLoop of the old ones |
| MediaDir.MediaCtx.Options | src/media_dir.c:385-398 | Loop sets or clears OPTION_LOOP and returns 1 exactly when it is now set; random and any other option change nothing and return 0 |
| MediaDir.Init | src/media_dir.c:400-411 | No catalog without a URL; otherwise a fresh catalog with media id -1 and no open chain |
| CmdsLine.Try | src/cmds_line.c:146-172 | One strncmp test: no match leaves the position; a command keyword selects its command and steps over it; quit only clears the run flag |
| CmdsLine.Keywords | src/cmds_line.c:146-172 | The successive checks stay within the buffer, advance exactly when a command was selected, and never set the run flag again |
| CmdsLine.ScanResult | src/cmds_line.c:135-173 | An argument exists only after a command and starts inside the buffer at a non-blank, non-newline character; a selected command is kept; a cleared run flag stays cleared |
| CmdsLine.Parse | src/cmds_line.c:135-173 | An argument is found only after a command, at a character that is neither blank nor a newline |
| CmdsLine.ScanAfterCommand | src/cmds_line.c:137-145 | Once a command is selected, the scan only looks for the first later character that is not blank, and has no argument when that is a newline or there is none |
| CmdsLine.ScanBlanks | src/cmds_line.c:137-138 | A run of blanks is skipped |
| CmdsLine.KeywordSelects | src/cmds_line.c:146-172 | At a command's keyword, followed by a character that starts no later keyword (or by nothing), the checks select that command and step over the keyword, leaving the run flag |
| CmdsLine.CommandAt | src/cmds_line.c:135-173 | A buffer of blanks then a command keyword selects that command, skips the character right after the keyword, and takes as argument the first later non-blank character unless a newline comes first; the run flag stays set |
| CmdsLine.KeywordScan | src/cmds_line.c:146-173 | Scanning from a command keyword that no later keyword follows selects that command, skips the character after the keyword and takes the first later non-blank character before a newline as the argument |
| CmdsLine.CommandLine | src/cmds_line.c:135-173 | The same for any line written as blanks, a command keyword and the rest, whose first character starts no later keyword |
| CmdsLine.NewlineFrom | src/cmds_line.c:176-178 | strchr for '\n': the first newline at or after the start, or none |
| CmdsLine.ArgText | src/cmds_line.c:174-181 | The argument is present exactly when an argument position is, holds no newline, and runs from that position to the first newline or to the end of the read |
| CmdsLine.ParseLine | src/cmds_line.c:135-180 | The command, argument and run flag are those of the scan; the buffer is left with the argument's newline replaced by '\0' |
| CmdsLine.ScanLine | src/cmds_line.c:135-173 | The scan loop yields exactly Parse of the buffer |
| CmdsLine.ScanStops | src/cmds_line.c:139-145 | The scan ends at the end of the read, at a newline, and at the first character after a command, which starts the argument |
| CmdsLine.ScanBlankStep | src/cmds_line.c:137-138 | A space or tab is skipped |
| CmdsLine.ScanKeywordStep | src/cmds_line.c:146-172 | Before a command, the scan continues one character past where the keyword checks stopped |
| CmdsLine.CutArgument | src/cmds_line.c:174-180 | The first newline from the argument on becomes '\0'; nothing else changes |
| CmdsLine.MatchKeywords | src/cmds_line.c:146-172 | The six checks in source order give exactly Keywords |
| CmdsLine.TryKeyword | src/cmds_line.c:146-172 | One check gives exactly Try |
| CmdsLine.NoKeywordAt | src/cmds_line.c:146-172 | A character other than a, p, s, n or q starts no keyword |
| CmdsLine.ScanPasses | src/cmds_line.c:135-172 | A non-blank character that starts no keyword is passed over |
| CmdsLine.PlaystopSelectsStop | src/cmds_line.c:151-165 | "playstop" selects stop: a later keyword at the advanced position overrides play |
| CmdsLine.DisplaySelectsPlay | src/cmds_line.c:146-172 | "display" selects play: keywords are found inside words |
| CmdsLine.NewlineAfterKeywordSkipped | src/cmds_line.c:135-178 | In "play\nnext" the newline right after play is skipped, so "next" becomes play's argument |
| CmdsLine.QuitStops | src/cmds_line.c:171-172 | "quit" clears the run flag and selects no command |
| CmdsLine.BlankLineSelectsNothing | src/cmds_line.c:137-140 | Blanks followed by a newline end the scan with nothing selected, whatever follows |
| CmdsLine.MethodPlay | src/cmds_line.c:62-66 | Requests Play and returns 1, the player then being in Play; no observer is notified |
| CmdsLine.MethodPause | src/cmds_line.c:68-72 | Requests Pause and returns 1, the player then being in Pause; every observer is notified of Pause exactly when the player was not already paused |
| CmdsLine.MethodStop | src/cmds_line.c:74-78 | Requests Stop and returns 1, the player then being in Stop; no observer is notified |
| CmdsLine.OnChangeLine | src/cmds_line.c:86-102 | A line exactly for Play, Pause and Stop, and it ends with a newline |
| CmdsLine.Dispatch | src/cmds_line.c:174-182 | play, pause and stop set the requested state, notify as those methods do, and leave the catalog alone; append sets the catalog URL and keeps its chain and media id; next moves the chain and media id to those of the walk resumed for the next id and returns that id; the player is unchanged by append and next |

## Left out

- Threads, the mutex and the condition variable of `src/player.c`: the blocking loop of `player_waiton`, the park and broadcast of `player_run`, and `player_destroy` with `pthread_yield`. `PlayerCtx.WaitOn` returns None where the caller would block.
- Player.PlayerCtx.ChangeMedia: the forwarding of the loop and random flags to the new catalog (`src/player.c:103-111`) is not modelled; catalog options are modelled in `MediaDir.MediaCtx.Options`.
- Player.PlayerCtx.StartTrack: a catalog without `next` is assumed to have `end` (`src/player.c:313` checks for it).
- Player.PlayerCtx.RunPass: one pass of the outer loop. The per-track outcomes of the catalog, decoder and source come in as a sequence, one per cycle, rather than from calls. The decoder, source, filter and jitter collaborators and the debug prints are not modelled.
- Player.PlayerCtx.BuildPair: `decoder_build` and `src_build` are foreign; only whether the source was built is a parameter.
- The clock calls of `src/heartbeat_samples.c` (`clock_gettime`, `clock_nanosleep`): the readings are parameters, and a sleep on a valid deadline is assumed to end at a reading no earlier than it. The retry loop of lines 120-123 is modelled only in its outcome: with a deadline the kernel refuses, `Beat` reports `Stuck` and `Pacer.Wait` returns no result.
- Heartbeat.Msec: `nsamples * 1000` is computed on unbounded integers; the source's `unsigned long` wrap-around is not modelled.
- Heartbeat.Beat: the late-beat report is a debug print and has no effect on the result; it is modelled separately as `WarnsLate` and `ReportsLate`.
- MediaDir.Find, MediaDir.MediaCtx.FindMedia, MediaDir.MediaCtx.List, MediaDir.MediaCtx.CurrentMedia and MediaDir.MediaCtx.Next: the root is always a readable listing. When `scandir` fails on the root (`src/media_dir.c:206-211`), the source loops over -1 entries of a NULL list and crashes; the model has no such case.
- Player.PlayerCtx.BuildPair: when the source cannot be built, the decoder already built is not freed by the source; this leak is not modelled.
- Heartbeat.Behind, Heartbeat.Late and Heartbeat.WarnsLate state their meaning only for normalized times, which every returning beat keeps with the corrected carry.
- MediaDir.MediaCtx.FindMedia, MediaDir.MediaCtx.List, MediaDir.MediaCtx.CurrentMedia and MediaDir.MediaCtx.Next use the media-only counting. The as-written counting is `Visit`/`Walk`/`Find` with `AsWritten` (see Findings).
- MediaDir.MediaCtx.Play: the callback is not run. The file it would receive is returned instead, and its result is ignored, as in the source.
- `scandir`, `malloc` and `sprintf` in `src/media_dir.c`: the tree is a value, an unreadable directory is one whose `scandir` fails, and allocation failures are not modelled. The ID3/JSON tag block (`src/media_dir.c:114-153`) is foreign code and is not modelled.
- `media_random` has an empty body and is not modelled as a member; `Options` with `Random` covers its effect (none).
- Freeing of frames in `_find` and `media_end` is not modelled; frames are values.
- The `select`, `ioctl` and `read` calls of `cmds_line_run` are not modelled; one read is a character sequence.
- CmdsLine.KeywordAt: a keyword matches only within the characters read. `strncmp` and `strchr` in the source can read past the end of the unterminated buffer.
- CmdsLine.Dispatch: append requires an argument. The source passes a NULL argument through to `media_insert`, which would store a NULL URL.
- CmdsLine.MethodPlay, CmdsLine.MethodPause and CmdsLine.MethodStop return 1 because, in this sequential model, no other task can change the state between the request and its report.
- `src/media_sqlite.c`, `src/main.c`, `src/media.h` and `src/sink.h` are not part of this model.

## Findings

| source | as written | input that shows it | evidently intended | confidence | as-written member | corrected member |
|---|---|---|---|---|---|---|
| src/heartbeat_samples.c:96 | the carry is taken only when the nanoseconds exceed one second | a clock at (10 s, 500000000 ns) advanced by 500 ms is left at (10 s, 1000000000 ns), which clock_nanosleep rejects: a reading of exactly 11 s is then taken as late, and one of 10.9 s retries the refused sleep for ever | carry at one second or more, so the nanoseconds stay in [0, 1e9) | not executed | Heartbeat.AsWrittenMissesDeadline | Heartbeat.NormalizedBeatCode |
| src/heartbeat_samples.c:114 | the late-beat report compares only the nanosecond field with 10 ms | a beat (1 s, 5000000 ns) late is not reported | report when the whole lateness exceeds 10 ms | not executed | Heartbeat.WholeSecondsNotReported | Heartbeat.ReportsLateExactly |
| src/media_dir.c:258-259 | `ret` is not reset between entries, so a non-media file after a media file also takes a media id | a directory of a.mp3, b.txt, c.mp3: a listing numbers the mp3 files 0 and 2, and media_next from a.mp3 walks past c.mp3 | only media files are numbered, so the next media file gets the next id | not executed | MediaDir.NextSkipsAfterOtherFile | MediaDir.NextFindsFollowing |
