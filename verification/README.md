# A verified model of the automatic frame-rate daemon

`afrd` watches the video decoder of an Android television box, finds out the
frame rate of the movie being played, switches the display to a mode that
suits it, and brings the original mode back afterwards. This project models
the daemon in Dafny and proves what it guarantees.

`dafny verify dfyconfig.toml` checks everything.

| file | models |
|---|---|
| `Arith.dfy`, `Bits.dfy` | integer division, exclusive or on numbers |
| `MsTime.dfy` | one-shot timers on a wrapping 32-bit clock (mstime.h) and their use in the main loop |
| `Rates.dfy`, `Chunks.dfy`, `Detector.dfy` | finding out the movie rate (afrd.c) |
| `Modes.dfy`, `Display.dfy`, `ModeSearch.dfy` | display modes, the two sysfs files, the search for a mode (modes.c, afrd.c) |
| `Controller.dfy`, `Afrd.dfy` | the daemon: on values, and in place on its globals |
| `Events.dfy`, `Movies.dfy` | what single events and readings do; what an attempt comes to, and how a movie gets its mode |
| `Runs.dfy`, `Histories.dfy`, `Hotplug.dfy` | what whole runs keep, what the answers of the detection rest on, and which modes can be found |
| `Liveness.dfy`, `Pacing.dfy`, `Polling.dfy`, `Playback.dfy`, `Reloading.dfy` | what pending operations lead to, and within what time |
| `Failures.dfy`, `Overruling.dfy`, `Box.dfy`, `Signals.dfy` | runs that end where the promises do not reach, the box they take place on, and fatal signals |
| `Crc32.dfy`, `Shmem.dfy`, `Reporting.dfy` | the checksum, the status record with its C and Java readers, and what they see of a running daemon |
| `CfgParse.dfy`, `Uevents.dfy`, `IniConfig.dfy` | the configuration list, kernel events and their filters, the Android settings editor |

Code that works on values is modelled by functions, code that updates things
in place by methods and classes. Each method is tied by its contract to a
function of its inputs or of the old state, and the theorems are about those
functions. `AfrdDaemon.Afrd` holds the globals of afrd.c; every one of its
methods turns the state into what the function of the same purpose in
`Controller` prescribes, so the theorems about runs are about the daemon.

A run is a sequence of states and turns (`Controller.IsTrace`). A turn of the
main loop meets arbitrary clock readings before and after the poll, an
arbitrary sequence of kernel events and API calls, and arbitrary contents of
the files it reads; every series of turns has its run
(`Controller.RunExists`). Everything written to the mode file is logged
together with the fractional-rate policy in force.

## Where the code does not do what is said of it

Each of these is modelled as the code does it, shown by a lemma, and bounded
by the exact condition under which the promise holds. Where a lemma of
`Failures` or `Overruling` is named, it is a run in which the promise is broken, from start-up
with the settings that the project ships but for two delays and one
blacklisted decoder.

* *The original mode comes back* (README.md:114-123 of the repository). It is
  lost if playback ends while `switch.delay.off` is 0, exactly when it is saved
  and the lit screen shows something else (`Runs.DelayKeepsIff`,
  `Failures.BoxLosesMode`), and if HDMI is disconnected while a mode is saved,
  unless the lit screen shows it anyway (`Runs.HdmiSwitchKeepsIff`,
  `Failures.HdmiLosesMode`). The latter also leaves the published status
  stale, exactly if a mode was saved (`Runs.HdmiSwitchTruthfulIff`). It stays
  saved, but is not restored, if the end is reported by a blacklisted decoder:
  with restoration switched on, and HDMI connected, it comes back after an end
  of playback exactly if none was saved or the decoder is not blacklisted
  (`Liveness.PlaybackEndRestores`, `Failures.BlacklistedEndRun`). Any event of a
  blacklisted decoder drops a restoration that is pending, too
  (`Liveness.BlacklistedDrops`, `Failures.DroppedRestorationRun`).
* *Dying from a fatal signal brings it back* (afrd.c:1302-1307). A signal in
  the middle of a switch is answered from fields that are not yet set: the
  saved mode does not come back exactly if the screen was lit, the fields say
  that this mode is shown, and a file already says otherwise
  (`Signals.SignalInSwitchIff`, `Signals.SignalInBlackout`).
* *The screen is black only until the mode is switched* (afrd.c:816). An event
  from a blacklisted decoder drops the pending switch before it is found to be
  blacklisted; the screen is then left black with nothing to come exactly if it
  was black (`Liveness.DelayLivesIff`, `Failures.BoxIsLeftBlack`), and stays so
  until another event (`Liveness.StuckStaysBlack`). A clock change drops a
  timer exactly if its corrected value is the reserved 0
  (`MsTime.JumpActsAsSleep`, `Liveness.TickLivesIff`,
  `Failures.ClockLeavesBoxBlack`).
* *A start within `switch.ignore` after an end is ignored* (README.md:143-147).
  While the clock is not changed and nothing comes in between, exactly if a
  mode was saved, the screen was lit and no switch was pending when playback
  ended, neither delay is switched off, HDMI is not disconnected, and the end
  delay, if a restoration was pending, is not over first
  (`Playback.SeekIgnoredIff`). If playback ends before the display was
  switched, the next start is not ignored (`Failures.EarlyEndRun`); if the end
  delay is over first, the original mode has been restored, and the start
  switches as usual (`Playback.EndDelayRestores`,
  `Playback.StartAfterRestoration`, `Failures.BoxRestoresEarly`).
* *A rate announced through the API is used by the next movie*
  (README.md:253-255). Exactly if the start comes within the second, is not
  taken for a seek and not reported by a blacklisted decoder, the rate is at
  least 10 Hz and below 100 Hz, and no other source was more certain of a
  different rate before (`Playback.HintWinsIff`, `Overruling.BoxOverrulesHint`);
  from rest no source is (`Playback.HintIsUsed`). A rate outside that range is
  used only if the detection goes on with it anyway; and it takes the place of
  the rate that the start itself announces, which is then lost
  (`Playback.OddHintDisplaces`, `Failures.BoxMissesRate`).
* *The highest rate that is an exact multiple is preferred* (README.md:166-170).
  Closeness always comes first, and an exact multiple is considered at all
  only up to the second (`ModeSearch.ExactMultiples`).
* *A mode off by no more than 11/256 is used* (afrd.c:645-675). Not if it is off
  by just that, shows each frame once, and high rates are preferred: its rating
  is then 0, and none (`ModeSearch.FoundModeShowsBest`, `CanShow`).
* *Clock changes are made up for* (afrd.c:997-1018). Only in the timers of what
  is pending; the time limit of the detection, the ignore time, the second of
  an announced rate and the HDCP timer move with the clock
  (`Events.ClockChangeMoves`).
* *Setting a delay to zero disables the operation* (README.md:121). A start
  delay of zero makes the switch due at once
  (`Playback.ZeroDelayStillSwitches`).
* *A fractional transition goes through the blank mode* (modes.c:246-250). By
  way of a second mode, exactly if that one has the same name or is equal to
  the first (`Displays.TwoSwitchesBlankIff`, `Failures.BoxSkipsBlank`). In the
  log of a run something is always written in between
  (`Runs.PolicyChangeInLog`).
* *`WxH` mode names* (modes.c:34-36) are never recognised
  (`Modes.ExplicitSizeNeverParses`).
* *A timer armed for `ms` is due after `ms`* (mstime.h:43-53). For delays that
  fit an `int32_t`, one millisecond late exactly if the deadline falls on the
  reserved reading 0, except that the largest delay, with such a deadline, is
  due at once (`MsTime.LeftIsIdeal`). In general a timer is due at once exactly
  if the delay, with that millisecond added, is 0 or at least 2^31
  (`MsTime.DueAtOnceIff`).
* *A filter matches if all its clauses do* (README.md:214-221). Exactly, for
  messages without repeated keys, if the clauses name different attributes
  (`Uevents.CountingIsConjunction`); a repeated key can stand in for a clause
  that fails (`Uevents.RepeatedKeyFoolsCount`).
* *The Java reader reports what the daemon wrote.* Version numbers of 128 and
  more and rates of 2^31 and more come out negative
  (`Shmem.JavaReadsWhatWasWritten`).
* *Saved settings are read back.* Exactly unless an active line of the old file
  below the first line that mentions the key says something else
  (`IniConfig.SaveThenLoad`), as in a file that makes a setting twice
  (`IniConfig.SecondLineWins`, `IniConfig.StaleLineWins`).
* *A policy on fractional rates chooses the variant* (README.md:174-180).
  Exactly, for a mode that has both and neither of them banned, but that for a
  movie at 25 Hz a 24 Hz mode is not shown at 23.976 Hz
  (`Runs.ChoiceFollowsPolicy`).
* *The estimate survives dropped frames* (afrd.c:441-449). The number of frame
  periods is right exactly if at least two neighbouring frames were both seen.
  Where two frames in a row were dropped, or more, the gap is passed over;
  except for four periods, which are taken for two as long as no single one has
  been seen (`Chunks.WrongGapsArePassedOver`).

## Model

| member | source | states |
|---|---|---|
| `MsTime.Expired` | mstime.h:113-123 | reports a due timer and disables it, and changes no other |
| `MsTime.Running` | mstime.h:137-147 | reports a timer that is armed and not due; disables one that is due |
| `MsTime.PollTimeout` | afrd.c:1058-1068 | the sleep that the loop computes is `Timeout` of its five timers |
| `MsTime.LeftIsIdeal` | mstime.h:54-99 | armed with less than 2^31 ms and read within 2^31 ms of the deadline, the time left is that of an unbounded clock, clamped at 0, and 1 ms more when the deadline falls on the reserved 0; exactly unless that happens with the largest delay, read at the moment of arming |
| `MsTime.DueAtOnceIff` | mstime.h:54-99 | for every delay that fits 32 bits, a timer is due at the moment of arming iff the delay, with that 1 ms, is 0 or at least 2^31 |
| `MsTime.LongestDelayCanFireAtOnce` | mstime.h:54-99 | so 2^31 - 1 ms can be due at once |
| `MsTime.FiresOncePerArming` | mstime.h:101-123 | whatever the clock does, one arming fires at most once, and does so exactly when some query finds it due |
| `MsTime.TimeoutIsMinimum` | afrd.c:981-987 | the sleep never passes an enabled timer and equals the time left on one of them; 60 s exactly if none is enabled |
| `MsTime.JumpActsAsSleep` | afrd.c:997-1018 | after a clock change of any size an adjusted timer is exactly where a sleep of `to` ms would leave it; it is lost exactly if the new value is 0 |
| `MsTime.ClockChangeIff` | afrd.c:997-1018 | a step of the clock is made up for iff it goes backwards, or is more than 10 s longer than the sleep |
| `MsTime.OffsetShifts` | mstime.h:89-99 | moving the clock by less than half its range moves the signed distance to a timer with it |
| `Rates.RoundHz` | afrd.c:242-273 | the loop finds the first closest of the standard rates and returns it if it is close, else 0 |
| `Rates.StandardValues` | afrd.c:244-251 | the eight standard rates are the FP8 values of the source |
| `Rates.SaneBand` | afrd.c:796 | a rate is sane from 10 Hz on and below 100 Hz |
| `Rates.HzRoundMeaning` | afrd.c:241-273 | the result is a nearest standard rate whenever any standard rate is close, and 0 exactly if none is |
| `Rates.CloseBand` | afrd.c:231-239 | the half-percent test as an inequality without division |
| `Rates.CloseIffSameFamily` | afrd.c:229-239 | among standard rates, close means: integer and fractional variant of one nominal rate |
| `Modes.ExplicitSizeNeverParses` | modes.c:32-61 | a name that begins with a width and an x is always rejected |
| `Modes.NameMeansMode` | modes.c:19-69 | a height, which gives the width, an f or none, p or i, and the rate: what every such name stands for |
| `Modes.SmpteMeansMode` | modes.c:21-27 | 4096 by 2160, progressive, at the rate that follows |
| `Modes.RecognisedIff` | modes.c:19-69 | no other name is recognised |
| `Modes.FractionalIsReduced` | modes.c:188-200 | the fractional variant of 24, 30, 60, 120 and 240 Hz runs at 1000/1001 of it, within 1/256 Hz; no other mode has one |
| `Modes.ParsedNames` | modes.c:19-69 | a recognised name is kept verbatim, is never empty or the blank mode, and gives an integer-rate mode |
| `Modes.RejectedLeaves` | modes.c:19-69 | a rejected description leaves a mode without a name or rate, with the sizes read so far |
| `Modes.SetHz` | modes.c:202-230 | the loop terminates, and picks the variant nearer to the nearest multiple |
| `Modes.LocalStopIsGlobal` | modes.c:214-226 | the first multiple from which the distance grows is the nearest of all |
| `Modes.NearestMultipleIsNearest` | modes.c:214-226 | no multiple n*hz, n >= 1, is nearer to the mode's rate, and ties go to the larger |
| `Modes.VariantIsCloser` | modes.c:202-230 | the variant chosen is at least as close to that multiple as the other; on a tie it is the fractional one if there is one; nothing else about the mode changes |
| `Displays.Display.constructor` | modes.c:14-17 | nothing is known of the display at first |
| `Displays.Display.Add` | modes.c:71-87 | the integer-rate mode is appended unless an equal one is listed |
| `Displays.Display.AddNames` | modes.c:99-118 | exactly the recognised names are added, in order |
| `Displays.Display.GetCurrent` | modes.c:142-166 | the blank mode and nothing else leaves the current mode alone; otherwise it is what the files say, or a nameless mode with the numbers that could be read |
| `Displays.Display.Init` | modes.c:89-140 | lists the sink's modes, then the current one if it has a name, then the configured ones; an unreadable list leaves none |
| `Displays.Display.Fini` | modes.c:168-174 | forgets the list |
| `Displays.Display.Null` | modes.c:262-270 | writes the blank mode unless the screen is blank |
| `Displays.Display.Switch` | modes.c:232-260 | the whole new state: what is written, under which policy, whether through the blank mode |
| `Displays.ListedOk` | modes.c:71-87 | the list keeps well-named integer-rate modes of which no two are equal, and afterwards holds an equal of the added one |
| `Displays.LookListsExactly` | modes.c:89-140 | after a look at the display, the modes that the sink names, those configured and the current one are listed, and nothing else |
| `Displays.FirstLook` | modes.c:89-166 | on a lit screen in a recognised mode, initialisation puts fields, list, files and log in agreement |
| `Displays.InitKeepsScreen` | modes.c:89-166 | reading the modes again changes the list and nothing else, and keeps the agreement |
| `Displays.RefreshIsIdle` | modes.c:142-166 | reading the current mode back finds the mode that is known |
| `Displays.SwitchKeepsScreen` | modes.c:232-260 | a switch leaves a lit screen in a mode equal to the one asked for; files and fields agree; two adjacent writes of one mode name never differ in policy |
| `Displays.SwitchWrites` | modes.c:232-260 | nothing is written iff the lit screen shows the mode and nothing is forced; the blank mode comes first iff a lit screen is forced, or goes to the other variant |
| `Displays.TwoSwitchesBlankIff` | modes.c:232-260 | on the way from a lit mode over any other to its second variant, a blank write occurs iff the one between has the same name or is equal to the first |
| `Displays.DetourSkipsBlank` | modes.c:246-257 | otherwise exactly the two names are written, each under its own policy |
| `ModeSearch.FindMultiple` | afrd.c:666-671 | the search for the multiple terminates at a closed form of the rate ratio |
| `ModeSearch.AcceptedExactly` | afrd.c:666-675 | with X the ratio in 1/256, a mode is accepted iff X is in 245..267, or X/2 is, or X/2 >= 385 and X/3 is; never beyond the third multiple |
| `ModeSearch.ExactMultiples` | afrd.c:666-675 | an exact multiple k of the movie rate is accepted iff k <= 2 |
| `ModeSearch.AcceptedBand` | afrd.c:641-675 | an accepted mode shows 1, 2 or 3 times the movie rate within 11/256 |
| `ModeSearch.RatingIsLexicographic` | afrd.c:677-681 | ratings order modes by closeness first and, among equally close ones, by the multiple, upwards or downwards as configured |
| `ModeSearch.IsBlacklisted` | afrd.c:221-227 | some banned rate is within 1/256 Hz |
| `ModeSearch.RateMode` | afrd.c:666-681 | accepts a mode iff the ratio left over is within 11/256 of one, and rates it |
| `ModeSearch.PickVariant` | afrd.c:684-694 | the nearer variant of a mode, the other one if its rate is banned, or none |
| `ModeSearch.FindMode` | afrd.c:654-699 | the loop over the list finds `FoundMode` |
| `ModeSearch.FoundModeIsBest` | afrd.c:641-699 | the mode found is a permitted variant of a listed mode with the current geometry; no listed mode rates higher and no earlier one as high; none is found iff none rates at all |
| `ModeSearch.FoundModeShowsBest` | afrd.c:642-698 | in terms of sizes, rates and bans: none is found iff no listed mode can show the movie; the one found is closest, then shows each frame most often, or least often if so preferred, then comes first; its variant is the nearer one unless banned |
| `ModeSearch.BestScoreIgnoresOrder` | afrd.c:654-699 | the best rating does not depend on order or repetitions in the list |
| `ModeSearch.BestScoreGrows` | afrd.c:654-699 | more modes never make the best one worse |
| `Chunks.Differences` | afrd.c:429-433 | turns the timestamps into the gaps between them, in place |
| `Chunks.CountGaps` | afrd.c:435-452 | the loop tallies the gaps |
| `Chunks.QueryChunks` | afrd.c:424-466 | the rate read off the timestamps; 0 if there are fewer than five, fewer than three periods are counted, or no standard rate is close |
| `Chunks.TallyWithDrops` | afrd.c:435-452 | after n gaps of any number of periods each: time is that of the gaps counted; periods are exact once a single one has been seen, and half the number before |
| `Chunks.GapCounts` | afrd.c:435-452 | which gaps count twice, which show that all before were double, and which are passed over, without a division |
| `Chunks.WrongGapsArePassedOver` | afrd.c:429-452 | within 1% and 750 us, gaps of more than two periods are passed over, but for four while no single one has been seen: the time is that of the others, and the number of periods the true one iff a single one occurs |
| `Chunks.ReportsIff` | afrd.c:422-462 | a rate is reported iff there are five timestamps, three periods are counted and a standard rate is close; then the nearest one |
| `Chunks.DropTolerant` | afrd.c:429-452 | if no gap is longer than two periods, the time is last minus first timestamp, and the number of periods the true one iff a single one occurs |
| `Chunks.ExactTimestamps` | afrd.c:429-462 | with exact timestamps the rate is the rounded true rate, however many frames were dropped between the others, if three periods are counted |
| `Detector.AccumulateFps` | afrd.c:276-292 | a sample replaces the rate and adds to the weight, or starts it over if it is not close |
| `Detector.BestFps` | afrd.c:295-332 | the loop over the sources computes the scan |
| `Detector.ScanFrame` | afrd.c:295-322 | the scan changes nothing but timeouts that have run out, and stops exactly at a source still collecting |
| `Detector.ScanWinner` | afrd.c:295-332 | the winner is certain enough, no more reliable source is still collecting, no eligible source is heavier and none before it as heavy |
| `Detector.WeightIsRun` | afrd.c:276-292 | a source's weight is its unit weight times the length of the longest run of close samples that its history ends with |
| `Detector.StatsAreHistory` | afrd.c:276-332 | after any series of samples, restarts and queries, every statistic is the replay of its source's history |
| `Detector.AnswerRestsOnRun` | afrd.c:104-128 | an answer before the last chance rests on at least 1, 2, 3 or 4 agreeing samples of the winning source, ends with the rate itself, and no more reliable source was still collecting |
| `Detector.AnswerIff` | afrd.c:295-332 | there is an answer iff some source has given 1, 2, 3 or 4 agreeing samples with no more reliable one still collecting; at the last chance iff some has given 1, 1, 2 or 2 |
| `Detector.SampleHolds` | afrd.c:287-291 | a sample holds up less reliable sources for two retry delays, and no longer |
| `Detector.RunIsOneFamily` | afrd.c:229-239 | such a run of a queried source stays within one nominal rate |
| `Histories.RunTold` | afrd.c:1051-1124 | at every turn of every run the statistics are what a growing series of samples, restarts and questions has made of empty ones, with standard samples only from the queried sources |
| `Histories.FoundRateRests` | afrd.c:590-631 | in every run, a rate found by an attempt before the last chance rests on at least 1, 2, 3 or 4 agreeing samples of its source up to the ones just read, of one nominal rate if the source is a queried one, with no more reliable source collecting |
| `Histories.AnnouncedRateRests` | afrd.c:790-799 | so does a rate settled on at once when playback starts with a rate announced |
| `Detector.QueriedRatesAreStandard` | afrd.c:334-556 | whatever a queried source reports is a standard rate |
| `Detector.FrameHzIsRoundable` | afrd.c:532-535 | no frame duration, however small or negative, leads to a division by zero in the rounding |
| `Detector.FrameHzIsNearest` | afrd.c:532-535 | the rate of a frame duration is rounded to the nearest 1/256 Hz |
| `Detector.BlocksHzMeaning` | afrd.c:364 | so is that of a number of frames in a time; reported is the nearest standard rate, if one is close |
| `Detector.NominalRates` | afrd.c:537-551 | a nominal rate stands for the standard rate with that whole part, iff there is one |
| `Detector.DurationFirst` | afrd.c:530-551 | it is asked only if no standard rate is close to the duration |
| `Events.EverySourceIsHeard` | afrd.c:617-623 | all three sources are asked, each for itself; the frame count only for at least 5 frames in 120 ms that it has not told yet; none any more once the directory could not be read |
| `Events.EventsAre` | afrd.c:899-915 | a decoder being added is a start without a rate; its removal, or the end of a rate, an end of playback |
| `Events.HintIsStart` | afrd.c:886-898 | an announced rate is a start with that rate, unless it is 0 or comes from a decoder that is not believed |
| `Events.AnnouncementOutlivesStart` | afrd.c:790-799 | a rate announced through the API holds for every start within its second, not only the first |
| `Events.StartIsNoted` | afrd.c:736-821 | a start that is heeded is noted as pending |
| `Events.AttemptIsNoted` | afrd.c:590-728 | after any attempt, however it ends, it is not |
| `Events.PendingStartIsNoSeek` | afrd.c:738-756 | so a start that follows an end of playback is not taken for a seek if the start before it was never attempted |
| `Events.BlackoutIff` | afrd.c:815-820 | after a start, the screen is to be blanked iff the start is heeded, the daemon is on, a blackout is configured, the rate is not known and no mode is saved |
| `Events.BlackoutActsIff` | afrd.c:1086-1088 | a blackout that is due saves what is shown and blanks the screen, unless a restoration is pending or it is black already |
| `Events.BlackoutComesFirst` | afrd.c:1086-1094 | it is written before a switch that is due in the same turn |
| `Events.MistrustedHintsArePassedOver` | afrd.c:769-777 | once a decoder is reported whose announcements are blacklisted, they change nothing |
| `Events.PlugIsDelayed` | afrd.c:823-838 | a plug event is looked into after its delay and not before, and never if that is 0 |
| `Events.ClockChangeMoves` | afrd.c:997-1018 | a clock change moves the four timers of what is pending, each to where the sleep would have left it, and nothing else |
| `AfrdDaemon.Afrd.constructor` | afrd.c:1022-1049 | the state in which the loop is entered: timers armed or off, no movie, the display as it was found, the status published |
| `AfrdDaemon.Afrd.UpdateStats` | afrd.c:210-219 | publishes the status of the state |
| `AfrdDaemon.Afrd.Blackout` | afrd.c:558-570 | saves the current mode and blanks the screen, if it is lit |
| `AfrdDaemon.Afrd.FramerateRestore` | afrd.c:572-588 | drops what is pending; switches back and forgets the movie, unless asked to only if black |
| `AfrdDaemon.Afrd.AccumulateFps` | afrd.c:276-292 | the sample goes to the statistic of its source and nothing else changes |
| `AfrdDaemon.Afrd.DecideFps` | afrd.c:609-622 | takes the best rate there is, and disables run-out timeouts |
| `AfrdDaemon.Afrd.QueryVdecChunks` | afrd.c:381-467 | a rate read off the timestamps becomes a sample of its source |
| `AfrdDaemon.Afrd.QueryVdecBlocks` | afrd.c:334-372 | too few frames, too short a time or an unchanged stamp is ignored; otherwise the stamp is noted and the rounded rate becomes a sample |
| `AfrdDaemon.Afrd.QueryVdec` | afrd.c:469-556 | frame duration first, nominal rate if that gives nothing; an unreadable file is not asked again |
| `AfrdDaemon.Afrd.ApplyPolicy` | afrd.c:633-639 | the configured fractional-rate policy is applied to the movie rate |
| `AfrdDaemon.Afrd.SwitchToRate` | afrd.c:633-728 | from the movie rate to the switch, or to lighting the screen if there is nothing to switch to |
| `AfrdDaemon.Afrd.SwitchTo` | afrd.c:719-727 | saves the current mode unless one is saved, switches and publishes |
| `AfrdDaemon.Afrd.DetectFps` | afrd.c:617-622 | asks the sources in order and takes the best |
| `AfrdDaemon.Afrd.FramerateSwitch` | afrd.c:590-728 | every branch: restoring, disabled, out of time, trying again, giving up, switching |
| `AfrdDaemon.Afrd.SettleForLess` | afrd.c:607-615 | out of time: the half-certain rate is used, or the screen is lit |
| `AfrdDaemon.Afrd.GoOn` | afrd.c:618-631 | the rate found is used, or another attempt is armed |
| `AfrdDaemon.Afrd.DropPending` | afrd.c:738-756 | drops what is pending; tells whether a start follows an end too soon |
| `AfrdDaemon.Afrd.DelayFramerateSwitch` | afrd.c:736-821 | every branch: seek, restoration switched off, blacklisted decoder, arming the timers |
| `AfrdDaemon.Afrd.PostponeSwitch` | afrd.c:769-820 | from the check of the decoder's name to the armed timers |
| `AfrdDaemon.Afrd.NoteMovie` | afrd.c:775-784 | notes the decoder; a change of direction starts the detection over |
| `AfrdDaemon.Afrd.NoteRate` | afrd.c:790-799 | a recent API hint overrides the event's rate; a sane rate becomes a sample |
| `AfrdDaemon.Afrd.ArmSwitch` | afrd.c:809-820 | arms the switch, the detection limit and, if nothing is known or saved, the blackout |
| `AfrdDaemon.Afrd.HandleHdmiSwitch` | afrd.c:823-838 | disconnection forgets the modes and the saved mode; connection reads the modes |
| `AfrdDaemon.Afrd.HandleRateHint` | afrd.c:886-898 | a frame-rate hint is passed on, rounded, unless it is 0 or its decoder is not believed |
| `AfrdDaemon.Afrd.RefreshRate` | afrd.c:1140-1150 | switches to a sane rate by force and restores the original mode otherwise |
| `AfrdDaemon.Afrd.HandleCall` | afrd.c:884-915 | what each kind of event and API call does |
| `AfrdDaemon.Afrd.HandleRequest` | afrd.c:1134-1156 | announcing a rate, setting one at once, asking for the configuration to be read |
| `AfrdDaemon.Afrd.HandleCalls` | afrd.c:1080-1084 | events and calls are handled in order |
| `AfrdDaemon.Afrd.UpdateClock` | afrd.c:1003-1018 | reads the clock and, after a clock change, adjusts four timers |
| `AfrdDaemon.Afrd.CheckBlackout` | afrd.c:1086-1088 | a blackout that is due is carried out unless a restoration is under way |
| `AfrdDaemon.Afrd.CheckSwitch` | afrd.c:1090-1094 | a switch that is due is attempted |
| `AfrdDaemon.Afrd.CheckHdmi` | afrd.c:1096-1100 | a hot-plug delay that is over leads to reading the HDMI state |
| `AfrdDaemon.Afrd.CheckConfig` | afrd.c:1102-1117 | while nothing is pending, a changed configuration file ends the loop |
| `AfrdDaemon.Afrd.CheckTimers` | afrd.c:1086-1123 | the timers are looked at in order |
| `AfrdDaemon.Afrd.LoopBody` | afrd.c:1051-1124 | one turn of the loop |
| `AfrdDaemon.Afrd.MainLoop` | afrd.c:1051-1124 | the loop goes through a trace of states, up to a shutdown or the first change of configuration |
| `AfrdDaemon.Afrd.Run` | afrd.c:1022-1130 | the loop and the restoration after it |
| `AfrdDaemon.Afrd.Serve` | afrd.c:1022-1130 | the daemon gives the display back lit and in the mode it found, unless HDMI is disconnected or restoration is switched off |
| `Controller.PolicyKeepsFamily` | afrd.c:633-639 | the policy turns a standard rate into the lower or the higher one of its nominal rate, as configured |
| `Movies.RateLookedFor` | afrd.c:633-639 | what is looked for is the movie rate, or the configured variant of the nearest whole rate |
| `Movies.ChosenShowsBest` | afrd.c:642-703 | among the listed modes, with the geometry shown, the preference and the bans configured, none shows the movie better than the one chosen |
| `Runs.PolicyPicksVariant` | afrd.c:633-692 | of an accepted mode that has two variants, the nearer one is the one that the policy asks for, iff it is not a 24 Hz mode for a movie at 25 Hz under the policy of fractional rates |
| `Runs.ChoiceFollowsPolicy` | afrd.c:633-700 | so is the one that the switch chooses, if its rate is not banned |
| `ModeSearch.NearestForRate` | modes.c:202-230 | of such a mode accepted for a standard rate, the fractional variant is the nearer iff the rate is fractional |
| `Controller.TraceIsSound` | afrd.c:1051-1124 | soundness of the state (statistics comparable, rates sane, modes well named, files in agreement) holds at every turn of every run |
| `Controller.StartUpIsInitial` | afrd.c:1022-1049 | start-up on a lit screen in a recognised mode gives a state from which all theorems about runs start |
| `Controller.RunExists` | afrd.c:1051-1124 | every series of turns has its run |
| `Runs.RestoreKeeps` | afrd.c:572-588 | restoring keeps the original mode, and shows it unless the call was only for a black screen and it was lit |
| `Runs.ConcludeKeeps` | afrd.c:633-728 | so does the switch itself |
| `Runs.SwitchRateKeeps` | afrd.c:590-728 | no attempt to switch loses the original mode; an attempt to restore brings it back |
| `Runs.DelayKeepsIff` | afrd.c:736-821 | an event loses it exactly if playback ends with restoration switched off while it is saved and the lit screen shows another mode |
| `Runs.HdmiSwitchKeepsIff` | afrd.c:823-838 | HDMI handling loses it exactly if HDMI is off while it is saved and the screen is black or shows another mode |
| `Runs.HandleKeepsIff` | afrd.c:884-915 | of all events and calls, exactly the end of playback just named loses it |
| `Runs.IterateKeeps` | afrd.c:1051-1124 | a turn in which neither happens keeps it |
| `Runs.OriginalNeverLost` | afrd.c:1022-1130 | in every run in which neither happens, at every turn the original mode is saved or on the lit screen, an armed blackout means that none is saved, and leaving the loop brings it back |
| `Runs.EnabledRunKeeps` | afrd.c:1051-1124 | which is every run with restoration enabled and HDMI connected |
| `Runs.EmergencyRestores` | afrd.c:1302-1307 | so does dying from a fatal signal between two handlers at any such moment |
| `Signals.SignalInSwitchIff` | modes.c:232-260 | at any point inside a switch, the signal handler brings the saved mode back unless the screen was lit, the fields still say that it is shown, and the files are ahead of them; and only then not |
| `Signals.SignalInRestore` | modes.c:232-260 | inside a restoration it always does |
| `Signals.SignalInBlackout` | modes.c:262-270 | inside a blackout it leaves the screen black once the blank mode is written, and brings the saved mode back once that is noted |
| `Signals.HandlerFailsIff` | afrd.c:1302-1307 | the handler fails iff it finds a lit screen that is said, wrongly, to show the saved mode |
| `Signals.FinishedIsSwitched` | modes.c:232-260 | the last of the points is the state after the switch |
| `Runs.SwitchFitsMovie` | afrd.c:633-728 | a switch ends with a lit screen of the same geometry, at a permitted rate, showing 1 to 3 times the movie rate within 11/256, with the earlier mode saved |
| `Runs.PointlessSwitchLights` | afrd.c:701-717 | with nothing to switch to, a lit screen stays as it is and a black one goes back to the mode it had |
| `Movies.FoundModeIsShown` | afrd.c:701-728 | with a mode found, the screen stays as it was iff a mode is saved, it is lit, nothing is forced and the rates are close; otherwise it ends lit, showing the mode, with what was shown before the movie saved |
| `Movies.AttemptOutcome` | afrd.c:590-728 | every attempt in full: restoring, switched off, a known rate, a half-certain one at the last chance, what the sources say, another attempt, or giving up |
| `Movies.ApiRateActs` | afrd.c:1140-1150 | a sane rate set through the API is shown at once, even if close to what is shown; any other one brings the original mode back |
| `Movies.KnownMovieSettles` | afrd.c:590-821 | once the start delay is over, a movie of known rate has its mode, if there is one and it is not needless |
| `Movies.FirstMovieIsShown` | afrd.c:590-821 | from start-up, the first movie announced brings the display to the mode chosen, however close that is |
| `Runs.FilesFollowState` | modes.c:232-270 | at every turn of every run, the mode file is blank iff the screen is black, and otherwise name and policy of the current mode; the log never goes from one variant of a mode straight to the other |
| `Runs.PolicyChangeInLog` | modes.c:246-257 | in the log of every run, between two writes of one name under different policies something else is written |
| `Runs.StatusNeverStale` | afrd.c:210-219 | in every run in which no disconnection is handled while a mode is saved, the published status is that of the state, at every turn |
| `Runs.ConnectedRunTells` | afrd.c:823-838 | which is every run with HDMI connected |
| `Runs.HdmiSwitchTruthfulIff` | afrd.c:823-838 | a disconnection leaves it stale exactly if a mode was saved |
| `Hotplug.HdmiLists` | afrd.c:823-838 | with HDMI on and a readable list, the modes named by the sink, configured or current are listed and nothing else; otherwise none |
| `Hotplug.FoundSincePlug` | afrd.c:823-838 | in every run, since HDMI was last handled, a mode is found for a rate iff HDMI was on, the list could be read, and some mode named or configured then, or current then, can show it |
| `Reporting.Publish` | afrd.c:210-219 | the published status is written to shared memory as a sealed record, which keeps the version |
| `Reporting.ReadersSeeDaemon` | afrd.c:210-219 | in every run in which no disconnection is handled while a mode is saved, at every turn, the record so written is accepted by both readers, and the Java reader decodes it to the state that the daemon is in |
| `Liveness.SwitchRateOutcome` | afrd.c:590-728 | every attempt ends with a lit screen and nothing pending, or puts itself off by the retry delay within its time limit |
| `Liveness.DelayLivesIff` | afrd.c:736-821 | an event leaves a black screen without a switch to come exactly if it is black, the decoder is blacklisted, and it is not an end of playback with restoration switched off |
| `Liveness.TickLivesIff` | afrd.c:1003-1018 | a clock change does so exactly if the corrected switch timer is 0 while something depends on it |
| `Liveness.BlackIsAlwaysPending` | afrd.c:736-821 | in every run without those two, a black screen or an armed blackout means an armed switch, and an undecided switch means an armed time limit, at every turn |
| `Liveness.StuckStaysBlack` | afrd.c:1051-1124 | once dropped, the screen stays black until an event comes in |
| `Liveness.QuietRunSettles` | afrd.c:590-631 | from any live state, overdue detections included, without further events, all attempts are over and the screen is lit after the time left on the switch, or the time left for detection plus one retry |
| `Liveness.TimeCanPass` | afrd.c:1055-1078 | from every state time can pass without an event and without being taken for a clock change |
| `Polling.PollIsForFirstTimer` | afrd.c:1058-1068 | the loop sleeps no longer than until any of its five timers is due, exactly until one of them, or 60 s iff none is armed |
| `Polling.HdcpIsRearmed` | afrd.c:1119-1123 | the check of HDCP is armed again for eight seconds, and nothing else changes |
| `Polling.SwitchIsPunctual` | afrd.c:1051-1124 | over turns in which nothing but the sleep takes longer than a lag, a pending switch is left alone until due, and attempted in the turn in which it becomes due, no later than the lag |
| `Liveness.DetectionTerminates` | afrd.c:607-631 | meanwhile at most ceil(time left for detection / retry delay) + 1 attempts are made, one if no time is left |
| `Liveness.FewIsBounded` | afrd.c:626-631 | the bound on the number of attempts, as a quotient |
| `Liveness.PlaybackStartSettles` | afrd.c:736-821 | after a start of playback this takes the start delay, or the detection timeout plus one retry; it does happen iff the decoder is not blacklisted or the screen was lit |
| `Liveness.PlaybackEndRestores` | afrd.c:736-821 | after an end of playback, once the end delay is over (the start delay if the screen was black), the original mode is on the lit screen and none saved, iff none was saved before, or restoration is on and the decoder is not blacklisted, or restoration is off and the screen was black or showed it anyway |
| `Liveness.BlacklistedDrops` | afrd.c:738-773 | an event of a blacklisted decoder drops what is pending, a restoration included, and changes nothing that is shown or saved, but for an end of playback with restoration off |
| `Liveness.DroppedStays` | afrd.c:1051-1124 | and so it stays while nothing comes in |
| `Pacing.RunIsPaced` | afrd.c:736-821 | at every turn of every run that neither changes the clock nor drops a switch, whatever is pending is due within the longest delay, and a detection is within its time limit, or past it by less than one delay |
| `Pacing.ScreenNeverStaysBlack` | afrd.c:590-631 | whenever in such a run the events stop, the screen is lit and all attempts are over within the longest delay, or the detection timeout plus one retry |
| `Playback.SeekIgnoredIff` | afrd.c:741-756 | a start after an end, with quiet turns between, is taken for a seek iff a mode was saved, the screen lit and no switch pending at the end, neither delay is off, no disconnection is handled, it comes within the ignore time, and the end delay, if a restoration was pending, is not over before |
| `Playback.EndDelayRestores` | afrd.c:741-821 | if it is over, the original mode is back |
| `Playback.SeekChangesNothing` | afrd.c:741-756 | a start taken for a seek cancels the pending restoration and changes nothing on the screen |
| `Playback.StartAfterRestoration` | afrd.c:741-821 | after a restoration, a start switches, however long the ignore time is |
| `Playback.HintWinsIff` | afrd.c:790-799 | a rate announced through the API less than a second before a start of playback is the rate to switch to, iff the start is not passed over or taken for a seek, and the rate is sane and no other source was more certain of a different one, or not sane and the one that the detection goes on with anyway |
| `Playback.OddHintIsDropped` | afrd.c:790-799 | a rate that is not sane is not noted, and neither is that of the start |
| `Playback.OddHintDisplaces` | afrd.c:790-799 | from rest, the sane rate of a start is the one to switch to iff no such rate has been announced |
| `Playback.HintIsUsed` | afrd.c:790-799 | over the quiet turns between announcement and start, from rest or with a restoration pending, it is used iff the start is heeded and the rate sane, or the one that the detection goes on with anyway; then without confirmation and without blanking |
| `Playback.ZeroDelayStillSwitches` | afrd.c:758-809 | a start delay of 0 makes the switch due within a millisecond |
| `Reloading.FileIsWatched` | afrd.c:1102-1117 | in every run in which the clock is not changed, the next look at the configuration file is never more than five seconds away |
| `Reloading.StartUpWatches` | afrd.c:1043-1044 | from start-up on |
| `Reloading.PendingPutsOff` | afrd.c:1113-1116 | a look that falls due while something is pending is put off by a second |
| `Reloading.ReloadIsJustified` | afrd.c:1102-1117 | the loop is left only with nothing pending, and a readable file that has changed or is to be read again |
| `Reloading.ChangeEndsLoop` | afrd.c:1102-1117 | once nothing is pending and nothing comes in, a changed file ends the loop by the next look |
| `Reloading.ReconfIsPrompt` | afrd.c:1152-1156 | a request to read it again is served in the same turn, or is due a millisecond later |
| `Failures.BlacklistedRun` | afrd.c:769-773 | from start-up: playback starts, the screen is blanked, a blacklisted decoder is reported, and the screen is left black with nothing to come |
| `Failures.ClockRun` | afrd.c:1003-1018 | the same after the clock is set back to where the switch timer becomes 0 |
| `Failures.DelayOffRun` | afrd.c:760-767 | from start-up: the display is switched for a movie, which ends with restoration switched off, and the original mode is lost |
| `Failures.HdmiRun` | afrd.c:823-838 | the same when HDMI is disconnected |
| `Failures.DetourRun` | modes.c:246-257 | from start-up: two movies in a row bring the display to the other variant of its mode without a blank write |
| `Failures.EarlyRestoreRun` | afrd.c:741-756 | from start-up: a movie ends, and the original mode is back before the ignore time is over |
| `Failures.EarlyEndRun` | afrd.c:741-756 | from start-up: a movie ends before the display is switched, and a start within both delays is not ignored |
| `Failures.BlacklistedEndRun` | afrd.c:769-773 | from start-up: the display is switched for a movie, the end of which a blacklisted decoder reports, and the movie's mode stays |
| `Failures.DroppedRestorationRun` | afrd.c:738-773 | the same when the restoration is pending and a blacklisted decoder is reported |
| `Failures.OddHintRun` | afrd.c:790-799 | from start-up: a rate that is not sane is announced, and a movie whose rate the kernel tells starts with none |
| `Overruling.OverruledRun` | afrd.c:276-332 | from start-up: three samples of 50 Hz lead to a switch; the next start follows neither an end nor the other rate that is announced |
| `Failures.BoxIsLeftBlack` | config/afrd-android8+.ini:36-47 | with the shipped delays this is one such run |
| `Failures.BoxSkipsBlank` | modes.c:246-257 | so is one for the change of policy, on a box with 720p60hz and 720p50hz |
| `Crc32.InitTable` | crc32.c:14-22 | every entry is the index shifted eight times by the bitwise definition |
| `Crc32.Update` | crc32.c:24-36 | for every start value and every sequence of bytes, the table gives the bit-by-bit register |
| `Crc32.LookupIsFeedByte` | crc32.c:24-27 | one look-up does the work of eight shifts |
| `Crc32.FeedBitsIsShifts` | crc32.c:17-20 | feeding bits one at a time is adding them at once and shifting |
| `Crc32.FeedConcat` | crc32.c:29-36 | a message can be fed in pieces |
| `Crc32.FeedLinear` | crc32.c:29-36 | the register is linear over GF(2) in start value and message together |
| `Crc32.FeedInjective` | crc32.c:29-36 | nothing that follows undoes a difference in the register |
| `Crc32.WindowDetected` | crc32.c:29-41 | messages that differ at most in a window of four bytes have equal checksums iff they are equal |
| `Crc32.BurstDetected` | crc32.c:29-41 | so two different messages of one length that agree outside four consecutive bytes have different checksums |
| `Crc32.PolynomialIsStandard` | crc32.c:11-22 | the generator is that of the standard |
| `Crc32.StartAndFinish` | crc32.c:38-41 | all bits are set at first, and inverted in the end |
| `Shmem.ParseInvertsBytes` | afrd.h:197-221 | the packed layout determines every field |
| `Shmem.Layout` | afrd.h:197-221 | at which offset each field is |
| `Shmem.LittleEndian` | android/app/src/main/java/ru/cobra/zap/afrd/Status.java:169 | numbers are little-endian |
| `Shmem.Shared.Update` | shmem.c:121-133 | the record is sealed with the checksum of its payload, twice, and its bytes are copied out; no other field changes |
| `Shmem.Shared.Read` | shmem.c:135-153 | succeeds iff size, both checksums and payload agree; what it has copied by then |
| `Shmem.StatusReader.Close` | android/app/src/main/java/ru/cobra/zap/afrd/Status.java:117-133 | forgets the mapping and the last stamp |
| `Shmem.StatusReader.CStr` | android/app/src/main/java/ru/cobra/zap/afrd/Status.java:193-197 | the bytes of a field up to the first NUL |
| `Shmem.StatusReader.Load` | android/app/src/main/java/ru/cobra/zap/afrd/Status.java:165-204 | succeeds iff the copy is consistent, and then decodes every field at its offset |
| `Shmem.StatusReader.Refresh` | android/app/src/main/java/ru/cobra/zap/afrd/Status.java:140-205 | which file is open afterwards, the old one, the reopened one or none; success iff the stamp is new, and that file of the right size and consistent; then it is decoded, and otherwise no field changes |
| `Shmem.PublishedIsAccepted` | shmem.c:121-153 | every published record satisfies the checks of both readers |
| `Shmem.JavaReadsWhatWasWritten` | android/app/src/main/java/ru/cobra/zap/afrd/Status.java:187-199 | every field is decoded to the value written; a number iff it stays below Java's sign bit |
| `Shmem.DamageIsNoticed` | shmem.c:135-153 | damage within any four consecutive bytes, checksums included, is noticed by both readers |
| `Shmem.TornIsNoticed` | shmem.c:121-153 | a copy made while one record replaces another, byte after byte, is consistent only if it is one of the two, or their checksums are equal |
| `CfgParse.CfgTrim` | cfg_parse/cfg_parse.c:41-63 | the two loops compute `Trim` |
| `CfgParse.TrimIsStretch` | cfg_parse/cfg_parse.c:41-63 | which is a stretch of the string without blanks at its ends and with nothing but blanks behind it |
| `CfgParse.Cfg.Locate` | cfg_parse/cfg_parse.c:123-131 | the walk ends at the first node with the key, and knows the node before it |
| `CfgParse.Cfg.Get` | cfg_parse/cfg_parse.c:117-135 | looks the trimmed key up |
| `CfgParse.Cfg.Set` | cfg_parse/cfg_parse.c:138-183 | overwrites the node with the trimmed key or prepends one; an empty key changes nothing |
| `CfgParse.Cfg.Delete` | cfg_parse/cfg_parse.c:186-224 | splices the node with the trimmed key out of the chain |
| `CfgParse.Cfg.Load` | cfg_parse/cfg_parse.c:66-94 | reads the text in chunks of up to 1023 characters, cuts at NUL and #, and splits at = |
| `CfgParse.Cfg.Save` | cfg_parse/cfg_parse.c:97-114 | writes one line for each node, in order |
| `CfgParse.ListIsMap` | cfg_parse/cfg_parse.c:117-224 | looking up, setting and deleting in the list is looking up, updating and removing in a map |
| `CfgParse.KeysStayOk` | cfg_parse/cfg_parse.c:138-224 | keys stay unique, trimmed and nonempty |
| `CfgParse.ListRefinesMap` | cfg_parse/cfg_parse.c:117-224 | after any series of set, delete and get from the empty list on, the list is the map that the same series makes, with each key once, and every get gives what the map holds |
| `CfgParse.LoadedIsStorable` | cfg_parse/cfg_parse.c:66-94 | every list loaded from text, long and broken lines included, can be written and read back |
| `CfgParse.LineSets` | cfg_parse/cfg_parse.c:72-89 | a line sets the trimmed text before its first = to the trimmed text after it, whatever comment follows and wherever a NUL ends it |
| `CfgParse.LineSetsNothing` | cfg_parse/cfg_parse.c:72-89 | without = before any comment it sets nothing |
| `CfgParse.TextIsRead` | cfg_parse/cfg_parse.c:66-94 | a text is read line by line, long lines 1023 characters at a time |
| `CfgParse.LoadLine` | cfg_parse/cfg_parse.c:72-89 | a saved line is read back to its entry, even when it fills the buffer and its newline comes in a chunk of its own |
| `CfgParse.SaveLoadRoundTrip` | cfg_parse/cfg_parse.c:66-114 | for every text, saving what was loaded and loading it again gives the same map, in reversed order; twice gives the same list |
| `Uevents.ParseMessage` | afrd.c:853-882 | the loop over the NUL-separated strings, the first of which is passed over |
| `Uevents.MessageRoundTrip` | afrd.c:853-882 | it recovers exactly the attributes from which a message was built |
| `Uevents.UeventFilter.Reset` | uevent_filter.c:89-92 | forgets the matches |
| `Uevents.UeventFilter.Match` | uevent_filter.c:94-112 | counts one match iff some clause is satisfied by the attribute |
| `Uevents.UeventFilter.IsMatched` | uevent_filter.c:114-117 | as many matches as clauses, and at least one |
| `Uevents.UeventFilter.Check` | afrd.c:848-882 | the filter's verdict on a whole message |
| `Uevents.CountingIsConjunction` | uevent_filter.c:89-117 | for a message with distinct keys, the verdict is positive iff the clauses name distinct attributes and each is satisfied by some attribute |
| `Uevents.OrderDoesNotMatter` | uevent_filter.c:89-117 | independently of the order of the attributes |
| `Uevents.RepeatedKeyFoolsCount` | uevent_filter.c:94-117 | with a repeated key, a clause that fails can go unnoticed |
| `IniConfig.Config.Put` | android/app/src/main/java/ru/cobra/zap/afrd/Config.java:106-121 | the item is set; the modified flag rises iff its text changes |
| `IniConfig.Config.Load` | android/app/src/main/java/ru/cobra/zap/afrd/Config.java:123-173 | the active lines, typed, later ones overriding; fails on a bad integer |
| `IniConfig.Config.Rewrite` | android/app/src/main/java/ru/cobra/zap/afrd/Config.java:203-266 | the new text of one line, and the items left to write |
| `IniConfig.Config.Save` | android/app/src/main/java/ru/cobra/zap/afrd/Config.java:192-293 | every line rewritten in place, then the items that no line mentioned |
| `IniConfig.TextReads` | android/app/src/main/java/ru/cobra/zap/afrd/Config.java:154-178 | both texts of a boolean, integer or string setting are read back as the setting |
| `IniConfig.TypedMeans` | android/app/src/main/java/ru/cobra/zap/afrd/Config.java:36-60 | which settings are booleans, integers and strings, and what their texts mean |
| `IniConfig.LineMakes` | android/app/src/main/java/ru/cobra/zap/afrd/Config.java:133-153 | a line makes the setting before its = to what is after it, whatever blanks surround them |
| `IniConfig.LoadedIsLast` | android/app/src/main/java/ru/cobra/zap/afrd/Config.java:133-165 | loading succeeds iff every typed line parses, and gives each key the meaning of its last active line |
| `IniConfig.SaveThenLoad` | android/app/src/main/java/ru/cobra/zap/afrd/Config.java:192-293 | after a save and a reload, a setting has its value in memory iff no later active line of the old file, below the first that mentions the key, says otherwise |
| `IniConfig.SecondLineWins` | android/app/src/main/java/ru/cobra/zap/afrd/Config.java:192-293 | a boolean setting that the file makes twice is read back as the second line has it |
| `IniConfig.ReloadSucceeds` | android/app/src/main/java/ru/cobra/zap/afrd/Config.java:192-293 | a file that could be loaded can be loaded after a save, iff every integer setting that is null and listed in the table is mentioned by the file |
| `IniConfig.ForeignSettingsKeep` | android/app/src/main/java/ru/cobra/zap/afrd/Config.java:192-293 | settings not in memory read back as before |
| `IniConfig.ForeignLinesStay` | android/app/src/main/java/ru/cobra/zap/afrd/Config.java:192-266 | line by line, what the file says of a key not in memory stays in its place |
| `IniConfig.ForeignLineIsKept` | android/app/src/main/java/ru/cobra/zap/afrd/Config.java:192-266 | a line that sets such a key still sets it, to the same value, at the same index of the saved file |
| `IniConfig.SavedLine` | android/app/src/main/java/ru/cobra/zap/afrd/Config.java:203-266 | every line in its place: one about an item that no line before mentions, active or commented out, becomes the item; every other one stays, comments and commented-out settings with their values included; a setting without = gets one |
| `IniConfig.CommentsStay` | android/app/src/main/java/ru/cobra/zap/afrd/Config.java:208-229 | comments stay where they are, and no line is added before the end |

## Left out

- HDCP, colour space and the timer that follows a mode switch for HDCP: they do not influence the mode, the screen or the detection.
- Sockets, `poll`, `mmap`, the delivery of signals, logging, and freeing memory: replaced by arbitrary inputs and a log of what is written.
- Failing reads and writes of sysfs files, except an unreadable mode list and an unreadable decoder directory.
- Splitting sysfs text into tokens: the model starts from mode names, timestamps and numbers. `Chunks` starts from sorted timestamps, as many as there are.
- Which filter an event matches, and the conversion of attribute texts to numbers: a turn carries the calls that result. The regular-expression engine is a predicate on values.
- Theorems about runs start from a lit screen in a recognised mode; only such modes are ever switched to.
- Mode names of 32 characters and more, decoder names of 32 and more, and messages or mode lists that exceed their buffers, which the source cuts off.
- Integers are unbounded except where wrapping is the point (timers, checksum, Java's parseInt and sign bits): nominal rates stay below 32768, and sample counts, weights and movie rates times 10000 below 2^31.
- `Chunks.QueryChunks`: requires the first two of five or more timestamps to differ, and the rate counted to be one that can be rounded, since the source divides by zero otherwise.
- `MsTime.Expired`: the pointer to the timer is a parameter and a result, since Dafny has no pointers to variables; so is that of `Running`.
- `Liveness.QuietRunSettles`: for a retry delay, a switch delay, an overdue detection and turns of at most 2^29 ms each, since beyond half the clock's range the source cannot tell past from future; the same bound is on `DetectionTerminates`, `PlaybackStartSettles` and `PlaybackEndRestores`, and on the delays in `Pacing` and `Playback`.
- `Playback.SeekIgnoredIff`: if the end came from a blacklisted decoder, for starts within 2^31 ms of it, after which the timer of the ignore time is ahead again.
- `Reporting.ReadersSeeDaemon`: the daemon keeps what it publishes as a value; `Publish` writes such a value, and is not called by the methods of `AfrdDaemon.Afrd`.
- `Runs.EmergencyRestores`: a signal between two handlers; one inside a switch or a blackout is the subject of `Signals`, at the granularity of whole writes and whole fields.
- `IniConfig.Config.Save`: the order in which the source's table lists its keys is a parameter; creating, deleting and renaming files is not modelled, nor are the accessors, which are null before the first load.
- `IniConfig.TextReads`: lower case and digits are those of ASCII.
- `Shmem.StatusReader.Refresh`: whether the file exists and the count of failures that makes the reader give up are not modelled; strings are bytes, without a character set.
- Marking the shared record as stale at exit, and the version fields, which are written once at start.
- Android services and screens, preferences, build files, and the command syntax of the API socket: they would only add easy members.
