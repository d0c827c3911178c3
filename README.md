# Sleep Inducer: session lifecycle, in Dafny

Sleep Inducer is an iOS app that locks the phone down for a sleep session.
It shields every app except an allow-list through the Screen Time
(FamilyControls / ManagedSettings / DeviceActivity) frameworks. This project
models the app's session lifecycle as one sequential system, and proves
properties of that model. The system has five parts:

- **Session controller** (`SessionControl.SessionViewModel`). It starts a
  manual session, runs the 30-second cancel countdown of a flexible session,
  ends a session once it expires, performs the emergency reset, and adopts a
  stored session on a cold start. The countdown timer is a boolean handle
  (`cancelTimer`). Timers that the handle no longer names but that still fire
  are counted in `orphanTimers`.
- **Shared store** (`SharedStore.SharedSessionStore`). This is the App Group
  `UserDefaults`, modelled as a `map<Key, Blob>` over the four keys. A blob is
  either a decodable value or `Corrupt`, and every load falls back to
  absent or to the default.
- **Enforcement gate** (`Shields.ShieldManager`). It updates an abstract
  shield record held by `ManagedSettings.ManagedSettingsStore`. The record has
  four fields: `applications`, `applicationCategories`, `webDomains` and
  `webDomainCategories`.
- **Background reactor** (`Monitor.SleepInducerMonitor`). The system wakes it
  when a registered interval starts or ends. It sees only the store and the
  shield record.
- **Schedule editor** (`ScheduleControl.ScheduleViewModel`). It edits the
  nightly window, saves it, and registers or unregisters the repeating
  `"nightlySchedule"` interval. Registrations live in
  `DeviceActivity.DeviceActivityCenter` as a map from interval name to
  schedule.

The value types are modelled as datatypes and functions:

- `SleepSession` and its manual constructor, expiry, remaining time and
  duration text.
- `RecurringSchedule` and its default.
- `StrictnessMode` and its raw values.
- The countdown ring's `formatTime`.

Each text format has a reader beside it (`ParseDuration`, `ParseClock`). The
reader accepts only texts in the formatter's exact layout: no leading zeros
and fields in range. The round-trip lemmas show that the label reads back as
the value it shows. The canonicity lemmas show that any text the reader maps
to a value is that value's label.
Swift's truncating `Int` division and remainder are in `SwiftInt.Quot` and
`SwiftInt.Rem`. `Scenarios` drives whole runs: cancel, abort, expiry, orphaned
timers, and the reactor racing the controller. Each run's postcondition
states what the run ends in.

Conventions:

- Time is whole seconds, and `now` is a parameter.
- Session identifiers (`Uuid`) are parameters.
- Two platform outcomes are boolean parameters:
  - whether JSON encoding succeeds (`encoded`);
  - whether the platform accepts an interval registration (`accepted`).
- Calendar components of an instant are the UTC time of day,
  `t % 86400` (`DeviceActivity.ClockComponents`).

The model follows what the code does, including these behaviours that a reader of the app might not expect:

- The reactor's interval start shields the *selected* tokens. The gate
  shields everything *except* the selected apps. So they disagree on every
  allowed app (`Monitor.ReactorShieldsWhatGateAllows`).
- `activateShield` does not clear first. An earlier `applications` shield
  survives it (`Shields.ActivateKeepsEarlierApplicationShield`).
- `startManualSession` has no guard against a session that is already
  running.
- `endSession` neither stops the cancel timer nor clears `isCancelling`.
- A second `beginCancel` overwrites the handle without invalidating the old
  timer. Neither `abortCancel` nor `emergencyReset` can stop that timer. When
  it reaches zero it ends the session. Because it never stops, it then also
  ends any later session, strict ones included
  (`Scenarios.OrphanTimerEndsSessions`).
- `emergencyReset` leaves `cancelCountdown` as it was.
- `hasActiveSession` looks only at the `isActive` flag and never at expiry.
- The reactor treats every interval name alike. So a nightly interval that
  ends during a manual session clears that session's record and shield,
  while the controller still shows the session
  (`Scenarios.NightlyEndDropsManualSession`).

## Model

| member | source | states |
|---|---|---|
| SwiftInt.Quot | Shared/SleepSession.swift:21-22 | Swift `Int` division truncates toward zero: `a - b*q` lies in `[0, b)` for a non-negative dividend and in `(-b, 0]` for a negative one |
| SwiftInt.Rem | Shared/SleepSession.swift:22 | the remainder satisfies `a == b*Quot(a,b) + r` and has magnitude below `b`; it takes the dividend's sign (`a % b` for non-negative `a`, never positive for negative `a`) |
| SwiftInt.NatToString | Shared/SleepSession.swift:24-26 | `"\(n)"` is at least one decimal digit, with no leading zero, and a single digit exactly below 10 |
| SwiftInt.IntToString | Shared/SleepSession.swift:24-26 | `"\(i)"` is the digits of `i` without a leading zero, after a minus sign exactly when `i` is negative |
| SwiftInt.NatToStringValue | Shared/SleepSession.swift:24-26 | the decimal text interpolated for a number reads back as that number |
| SwiftInt.Pad2Value | SleepInducer/Views/Components/CountdownTimerView.swift:55-57 | a `%02d` field is two digits for values below 100 and reads back as the value |
| SwiftInt.CanonicalDigits | Shared/SleepSession.swift:24-26 | digits without a leading zero are exactly the interpolated text of the number they denote |
| SwiftInt.TwoDigits | SleepInducer/Views/Components/CountdownTimerView.swift:55-57 | any two digits are exactly the `%02d` text of the number they denote |
| StrictnessModes.FromRawValue | Shared/StrictnessMode.swift:3-5 | `init(rawValue:)` succeeds exactly for "strict" and "flexible", and the mode it gives has that raw value |
| StrictnessModes.RawValue | Shared/StrictnessMode.swift:3-5 | a raw value is the case's name, a non-empty lower-case word |
| StrictnessModes.Id | Shared/StrictnessMode.swift:7 | the id names its case: `init(rawValue:)` of it gives the case back |
| StrictnessModes.RawValueRoundTrip | Shared/StrictnessMode.swift:3-7 | the raw value of every mode decodes to that mode; there are exactly two cases; `id` is the raw value |
| StrictnessModes.CasesDistinguishable | Shared/StrictnessMode.swift:7-21 | raw value, id, display name and description each tell the two modes apart (both directions) |
| StrictnessModes.DisplayName | Shared/StrictnessMode.swift:9-14 | "Strict"/"Flexible" are the raw values with the first letter upper-cased |
| StrictnessModes.Description | Shared/StrictnessMode.swift:16-21 | the description begins "Cannot" exactly for the strict mode, the one that cannot be cancelled |
| ScheduleModes.DefaultSchedule | Shared/ScheduleMode.swift:16-23 | the default is disabled, runs 22:00 to 07:00 (so it wraps past midnight), is flexible, and has in-range fields |
| ScheduleModes.RecurringScheduleEquality | Shared/ScheduleMode.swift:8-14 | two schedules are equal exactly when all six fields are |
| ScheduleModes.ScheduleModeEquality | Shared/ScheduleMode.swift:3-6 | `manual` never equals `recurring`; within a case equality is on the payload |
| SleepSessions.ManualSession | Shared/SleepSession.swift:29-39 | the new session starts at `now`, lasts `durationMinutes*60` seconds, is active, has mode `.manual(durationMinutes)`, the given strictness and the given id |
| SleepSessions.RemainingTime | Shared/SleepSession.swift:11-17 | remaining time is never negative, is zero exactly when the session has expired (`now >= endsAt`), and otherwise is `endsAt - now` |
| SleepSessions.IsExpired | Shared/SleepSession.swift:15-17 | expired exactly when the time since the start has reached the session's length |
| SleepSessions.ManualSessionRunningAtStart | Shared/SleepSession.swift:15-17 | a manual session of positive length is not expired when it is created, and has its whole length remaining |
| SleepSessions.SessionEquality | Shared/SleepSession.swift:3-9 | sessions are equal exactly when all six fields are |
| SleepSessions.DurationParts | Shared/SleepSession.swift:20-22 | for non-negative lengths, hours and minutes are in range and account for the length minus its leftover seconds |
| SleepSessions.DurationFormatted | Shared/SleepSession.swift:19-27 | the text is at least two characters and ends in its unit letter, 'h' or 'm' |
| SleepSessions.DurationFormattedRoundTrip | Shared/SleepSession.swift:19-27 | the duration text ("Hh Mm", "Hh" or "Mm") reads back as the length with leftover seconds dropped |
| SleepSessions.DurationReaderCanonical | Shared/SleepSession.swift:19-27 | any text the strict reader maps to the session's length is exactly its duration text, so hours are `total/3600`, minutes `(total%3600)/60`, and neither has a leading zero |
| SleepSessions.DurationFormattedLayout | Shared/SleepSession.swift:23-26 | the text ends in 'h' exactly when hours > 0 and minutes == 0, and it contains a space exactly when both hours and minutes are shown |
| SleepSessions.ManualDurationShown | Shared/SleepSession.swift:19-39 | a manual session's duration text reads back as exactly `durationMinutes*60` seconds |
| Countdown.Remaining | SleepInducer/Views/Components/CountdownTimerView.swift:12 | the clamp is never negative, is at least `endsAt - now`, and is zero exactly when the end has come |
| Countdown.ClockFields | SleepInducer/Views/Components/CountdownTimerView.swift:49-52 | minutes and seconds are below 60, and `h*3600 + m*60 + s` is the total |
| Countdown.FormatTime | SleepInducer/Views/Components/CountdownTimerView.swift:48-58 | the label is five characters exactly when there are no hours, and longer otherwise |
| Countdown.FormatTimeRoundTrip | SleepInducer/Views/Components/CountdownTimerView.swift:48-58 | "H:MM:SS" (when h > 0) or "MM:SS" reads back as exactly the total |
| Countdown.ClockReaderCanonical | SleepInducer/Views/Components/CountdownTimerView.swift:48-58 | any text the strict reader maps to a total is exactly `formatTime` of it: hours without a leading zero, fields as `total/3600`, `(total%3600)/60`, `total%60` |
| Countdown.FormatTimeLayout | SleepInducer/Views/Components/CountdownTimerView.swift:54-57 | the last five characters are "MM:SS" with two-digit fields; the text is exactly those five when hours are 0, and otherwise the hours' digits and a colon come first |
| ManagedSettings.ClearedShieldsNothing | Shared/ShieldManager.swift:23-25 | with every shield setting cleared, no application and no web domain is shielded |
| ManagedSettings.ManagedSettingsStore.ClearAllSettings | Shared/ShieldManager.swift:24 | every shield setting becomes unset |
| DeviceActivity.ClockComponents | SleepInducer/ViewModels/SessionViewModel.swift:114-115 | hour, minute and second are present and in range, and they sum to the instant's time of day |
| DeviceActivity.DeviceActivityCenter.StartMonitoring | SleepInducer/ViewModels/SessionViewModel.swift:119-123 | an accepted registration adds or replaces the named interval; a refused one throws (`failed`) and changes nothing |
| DeviceActivity.DeviceActivityCenter.StopMonitoring | SleepInducer/ViewModels/SessionViewModel.swift:126-128 | exactly the named intervals are removed |
| Shields.Activated | Shared/ShieldManager.swift:12-20 | activation sets `applicationCategories` to all-except the selected apps and `webDomainCategories` to all, and keeps `applications` and `webDomains` |
| Shields.ShieldManager.ActivateShield | Shared/ShieldManager.swift:12-20 | the store's shield becomes `Activated` of its previous value; nothing is cleared first |
| Shields.ShieldManager.DeactivateShield | Shared/ShieldManager.swift:23-25 | the store's shield is cleared, whatever it was (so a repeat changes nothing) |
| Shields.ActivateIdempotent | Shared/ShieldManager.swift:12-20 | activating twice with the same selection gives the same record as activating once |
| Shields.ActivateReadsOnlyApplications | Shared/ShieldManager.swift:13 | selections with the same application tokens give the same record: category and web-domain tokens are ignored |
| Shields.ActivateAllowsExactlySelected | Shared/ShieldManager.swift:15-16 | over a record with no `applications` shield, an app is shielded exactly when it is not in the selection |
| Shields.ActivateShieldsAllWebDomains | Shared/ShieldManager.swift:18-19 | after activation every web domain is shielded |
| Shields.ActivateKeepsEarlierApplicationShield | Shared/ShieldManager.swift:12-20 | an app shielded by an earlier `applications` setting stays shielded, even when it is selected |
| SharedStore.KeyNamesDistinct | Shared/AppGroupConstants.swift:7-10 | the four key strings are pairwise distinct |
| SharedStore.SharedSessionStore.LoadSession | Shared/SharedSessionStore.swift:21-26 | a session is returned exactly when the key holds session data, and then it is that session; missing or undecodable data gives nil |
| SharedStore.SharedSessionStore.LoadAllowedApps | Shared/SharedSessionStore.swift:40-45 | the stored selection when it decodes, otherwise the empty selection |
| SharedStore.SharedSessionStore.LoadSchedule | Shared/SharedSessionStore.swift:55-60 | a schedule is returned exactly when the key holds schedule data, and then it is that schedule |
| SharedStore.SharedSessionStore.LoadDefaultStrictness | Shared/SharedSessionStore.swift:72-77 | strict exactly when the key holds the string "strict"; missing, foreign or unknown values read as flexible |
| SharedStore.SharedSessionStore.SaveSession | Shared/SharedSessionStore.swift:15-19 | when encoding succeeds only the session key changes and the session loads back; when it fails nothing changes |
| SharedStore.SharedSessionStore.ClearSession | Shared/SharedSessionStore.swift:28-30 | only the session key is removed; the session then loads as nil and the other three loads are unchanged |
| SharedStore.SharedSessionStore.SaveAllowedApps | Shared/SharedSessionStore.swift:34-38 | when encoding succeeds only the allow-list key changes and the selection loads back; otherwise nothing changes |
| SharedStore.SharedSessionStore.SaveSchedule | Shared/SharedSessionStore.swift:49-53 | when encoding succeeds only the schedule key changes and the schedule loads back; otherwise nothing changes |
| SharedStore.SharedSessionStore.ClearSchedule | Shared/SharedSessionStore.swift:62-64 | only the schedule key is removed; the schedule then loads as nil |
| SharedStore.SharedSessionStore.SaveDefaultStrictness | Shared/SharedSessionStore.swift:68-70 | the raw value is written under its key, and loading gives back the saved mode; the other loads are unchanged |
| SharedStore.UnknownStrictnessIsFlexible | Shared/SharedSessionStore.swift:76 | any string other than the two raw values falls back to flexible |
| SessionControl.SessionInterval | SleepInducer/ViewModels/SessionViewModel.swift:111-117 | the session interval is one-shot and runs from the time of day of `now` to that of the end date |
| SessionControl.FlexibleDescriptionStatesDelay | Shared/StrictnessMode.swift:19 | the flexible description names the controller's 30-second countdown |
| SessionControl.SessionViewModel.constructor | SleepInducer/ViewModels/SessionViewModel.swift:16-18 | fresh countdown state, then cold start: an expired stored session is ended, and any other stored session is adopted with the shield and intervals untouched |
| SessionControl.SessionViewModel.HasActiveSession | SleepInducer/ViewModels/SessionViewModel.swift:20-22 | true exactly when a session is present and its `isActive` flag is set; expiry is not consulted |
| SessionControl.SessionViewModel.StartManualSession | SleepInducer/ViewModels/SessionViewModel.swift:26-29 | adopts the manual session and stores it (when it encodes); shields with the allow-list stored beforehand; registers the one-shot interval when accepted, with nothing undone otherwise; countdown state untouched |
| SessionControl.SessionViewModel.ActivateSession | SleepInducer/ViewModels/SessionViewModel.swift:79-87 | the same effects for any session |
| SessionControl.SessionViewModel.BeginCancel | SleepInducer/ViewModels/SessionViewModel.swift:33-38 | for a flexible session: cancelling, countdown at 30, a live handle, and one more orphan if a handle was live; otherwise nothing changes |
| SessionControl.SessionViewModel.FireTimer | SleepInducer/ViewModels/SessionViewModel.swift:40-46 | one second off the countdown; at or below zero the handle is dropped, cancelling stops and the session ends everywhere |
| SessionControl.SessionViewModel.Tick | SleepInducer/ViewModels/SessionViewModel.swift:38-48 | with no live handle nothing changes; the last tick ends the session with the countdown at 0; an earlier tick only counts down |
| SessionControl.SessionViewModel.StrayTick | SleepInducer/ViewModels/SessionViewModel.swift:38-48 | an orphaned timer runs the same closure: it counts down and, at or below zero, ends whatever session is active |
| SessionControl.SessionViewModel.AbortCancel | SleepInducer/ViewModels/SessionViewModel.swift:51-56 | not cancelling, countdown back at 30, handle dropped; the session, end time included, is kept; orphans are not stopped |
| SessionControl.SessionViewModel.EmergencyReset | SleepInducer/ViewModels/SessionViewModel.swift:60-68 | from any state: handle dropped, not cancelling, session gone from memory and store, shield cleared, "sleepSession" unregistered; countdown and orphans untouched |
| SessionControl.SessionViewModel.CheckExpiry | SleepInducer/ViewModels/SessionViewModel.swift:72-75 | ends the session exactly when one is present and `now >= endsAt`; otherwise nothing changes |
| SessionControl.SessionViewModel.ExecuteCancel | SleepInducer/ViewModels/SessionViewModel.swift:89-93 | not cancelling, handle dropped, session ended everywhere; countdown untouched |
| SessionControl.SessionViewModel.EndSession | SleepInducer/ViewModels/SessionViewModel.swift:95-100 | session gone from memory and store, shield cleared, "sleepSession" unregistered; the countdown, handle and `isCancelling` are left as they were |
| SessionControl.SessionViewModel.LoadExistingSession | SleepInducer/ViewModels/SessionViewModel.swift:102-109 | no stored session: nothing changes; expired: the session is ended; unexpired: it is adopted and the gate is not touched |
| SessionControl.SessionViewModel.StartMonitoring | SleepInducer/ViewModels/SessionViewModel.swift:111-124 | registers the one-shot "sleepSession" interval when accepted; a refusal is swallowed |
| SessionControl.SessionViewModel.StopMonitoring | SleepInducer/ViewModels/SessionViewModel.swift:126-128 | only "sleepSession" is unregistered |
| ScheduleControl.NightlyInterval | SleepInducer/ViewModels/ScheduleViewModel.swift:51-56 | a repeating interval from the schedule's start hour and minute to its end hour and minute |
| ScheduleControl.AfterSave | SleepInducer/ViewModels/ScheduleViewModel.swift:33-41 | enabled and accepted: "nightlySchedule" is the nightly interval; enabled and refused: nothing changes; disabled: "nightlySchedule" is gone; other names are never touched |
| ScheduleControl.ScheduleViewModel.constructor | SleepInducer/ViewModels/ScheduleViewModel.swift:11-13 | the schedule is the stored one, or the default when none loads |
| ScheduleControl.ScheduleViewModel.SetStartTime | SleepInducer/ViewModels/ScheduleViewModel.swift:15-22 | only the start hour and minute change, to 22 and 0 for missing components; in-range components keep the schedule well formed |
| ScheduleControl.ScheduleViewModel.SetEndTime | SleepInducer/ViewModels/ScheduleViewModel.swift:24-31 | only the end hour and minute change, to 7 and 0 for missing components |
| ScheduleControl.ScheduleViewModel.Save | SleepInducer/ViewModels/ScheduleViewModel.swift:33-41 | writes the schedule (when it encodes), and only that record; then the registrations become `AfterSave` of the old ones, and a refusal leaves the record written |
| ScheduleControl.ScheduleViewModel.ToggleEnabled | SleepInducer/ViewModels/ScheduleViewModel.swift:43-46 | flips `isEnabled`, then has exactly `Save`'s effects |
| ScheduleControl.ScheduleViewModel.StartScheduleMonitoring | SleepInducer/ViewModels/ScheduleViewModel.swift:50-63 | registers the nightly interval under "nightlySchedule" when accepted; a refusal is swallowed |
| ScheduleControl.ScheduleViewModel.StopScheduleMonitoring | SleepInducer/ViewModels/ScheduleViewModel.swift:65-67 | only "nightlySchedule" is unregistered |
| Monitor.IntervalStartShield | SleepInducerMonitor/SleepInducerMonitor.swift:13-22 | applications, specific categories and web domains are the selection's sets, each nil when empty; web-domain categories are kept |
| Monitor.SleepInducerMonitor.IntervalDidStart | SleepInducerMonitor/SleepInducerMonitor.swift:9-23 | the shield becomes `IntervalStartShield` of the old one and the stored selection, whatever the interval's name; the store is only read |
| Monitor.SleepInducerMonitor.IntervalDidEnd | SleepInducerMonitor/SleepInducerMonitor.swift:25-31 | every shield cleared and only the session key removed, whatever the interval's name; allow-list, schedule and strictness loads unchanged |
| Monitor.IntervalStartShieldsSelection | SleepInducerMonitor/SleepInducerMonitor.swift:13-19 | after interval start an app is shielded exactly when it or its category is selected |
| Monitor.ReactorShieldsWhatGateAllows | SleepInducerMonitor/SleepInducerMonitor.swift:16 | an allowed app is shielded by the reactor but exempted by the gate (`Shared/ShieldManager.swift` lines 15-16) |
| Monitor.ReactorNeverMatchesGate | SleepInducerMonitor/SleepInducerMonitor.swift:9-23 | from cleared settings the reactor and the gate never produce the same record |
| Monitor.EmptySelectionShieldsNothing | SleepInducerMonitor/SleepInducerMonitor.swift:16-22 | with an empty selection, interval start shields no app |
| Scenarios.CancelThenThirtyTicks | SleepInducer/ViewModels/SessionViewModel.swift:33-48 | from any valid controller with a flexible session: exactly 30 firings after "cancel" end the session; only the session key is removed, the shield is cleared, only "sleepSession" is unregistered, and a previously live handle becomes an orphan |
| Scenarios.CancelTakesThirtySeconds | SleepInducer/ViewModels/SessionViewModel.swift:33-48 | on a new device, after "cancel", exactly 30 ticks end the session, its record, its shield and its interval |
| Scenarios.AbortKeepsSession | SleepInducer/ViewModels/SessionViewModel.swift:51-56 | cancel, two ticks and abort keep the original session, with the countdown back at 30 |
| Scenarios.StrictIgnoresCancel | SleepInducer/ViewModels/SessionViewModel.swift:34 | "cancel" on a strict session changes nothing and starts no countdown |
| Scenarios.OneMinuteSessionExpires | SleepInducer/ViewModels/SessionViewModel.swift:72-75 | a one-minute session survives the check at +59 s, is still reported active while expired, ends at the +61 s check, and a further check changes nothing |
| Scenarios.OrphanTimerEndsSessions | SleepInducer/ViewModels/SessionViewModel.swift:38-56 | cancel twice, then abort: the orphan ends the session after 30 firings and then ends the next session, a strict one, at its first firing |
| Scenarios.NightlySurvivesEmergencyReset | SleepInducer/ViewModels/ScheduleViewModel.swift:50-67 | an enabled, accepted nightly registration is still there after an emergency reset, which removes only "sleepSession" |
| Scenarios.NightlyEndDropsManualSession | SleepInducerMonitor/SleepInducerMonitor.swift:25-31 | a nightly interval ending mid-session removes the session record and every shield while the controller still reports the session active |
| Scenarios.IntervalEndTwice | SleepInducerMonitor/SleepInducerMonitor.swift:25-31 | a second interval end changes no load; the allow-list survives both |
| Scenarios.ReactorStartOverSession | SleepInducerMonitor/SleepInducerMonitor.swift:9-23 | interval start during a session shields an allowed app the gate had exempted |

## Left out

- SwiftUI presentation is not part of this model: views, theme, the
  five-second polling that calls `checkExpiry`, and the
  custom-duration picker. The polling is what `CheckExpiry(now)` stands for.
- HealthKit, screen-time authorization and `AllowedAppsViewModel` are not
  part of this model. The allow-list editor is a pass-through to
  `SaveAllowedApps`/`LoadAllowedApps`.
- JSON encoding and decoding are reduced to two things: a boolean
  `encoded` outcome on saves, and the `Corrupt` blob on loads.
- `UserDefaults` sharing across processes is taken as one sequential map. No
  interleaving of the app and the extension is modelled, other than the
  call orders in `Scenarios`.
- Timers: `Timer` scheduling on the run loop and the `weak self` capture are
  not modelled. A firing is a call to `Tick` (the handle's timer) or
  `StrayTick` (an orphaned timer). The model counts orphans but does not
  tell them apart.
- `Calendar.current` is taken as UTC. `startDate`/`endDate` on
  `RecurringSchedule` (a calendar date built from an hour and a minute) are
  not modelled; the setters take the calendar's components directly.
- Floating point: `TimeInterval` is whole seconds, and the progress-ring
  fraction is not modelled. `formatTime` starts from the truncated,
  non-negative `Int`.
- `ManagedSettingsStore` and `DeviceActivityCenter` are modelled only as far
  as the core uses them: a shield record and a map of registrations.
  Registering an interval that the platform rejects as invalid (too short,
  say) is the `accepted == false` outcome.
- ManagedSettings.ApplicationShielded: the platform's rule for which apps a
  shield record covers is assumed, not documented in the code. An app listed
  in `applications` is shielded even when the category policy exempts it, and
  each app belongs to exactly one category (`categoryOf`). The lemmas about
  which apps are shielded hold under that rule:
  `Shields.ActivateAllowsExactlySelected`,
  `Shields.ActivateKeepsEarlierApplicationShield`,
  `Monitor.IntervalStartShieldsSelection`,
  `Monitor.ReactorShieldsWhatGateAllows` and
  `Scenarios.ReactorStartOverSession`.
- SleepSessions.ManualSession: `durationMinutes * 60` is computed on unbounded
  integers. Swift would trap on overflow for durations beyond 2^63/60
  minutes.
- SessionControl.SessionViewModel.ActivateSession: one `now` is used both
  for the session's start and for the interval's start components. The
  source reads the clock twice.
