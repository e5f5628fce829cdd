# Smart Home Dashboard — a verified Dafny model

This project models the logic of a browser-local smart-home dashboard. The
page keeps a fixed catalog of eight simulated devices. Each device has an id,
a name, a type (Lighting, Climate Control, Security, Entertainment), an on/off
status, and an optional numeric value: brightness, temperature or volume.
Security devices have no value.

The dashboard toggles devices and sets their values. It switches all devices
on or off, or sets each one at random. It filters the list by type, counts the
devices of each type and computes a few statistics. It saves a snapshot of the
device states and merges it back on reload. A separate login page keeps a user
list and a "current user" session marker.

Modules:

- `devices.dfy` (`Devices`): the catalog, lookup by id (`find`), and the effect
  of every mutation as a pure function on the device list.
- `views.dfy` (`Views`): the filtered view, the per-type counts and the
  statistics panel (active count, total, rounded mean temperature, energy).
- `snapshot.dfy` (`Snapshots`): the saved projection `{id, status, value}` and
  the merge back by id, with the save/merge round trip.
- `keyboard.dfy` (`Keyboard`): the `'1'`..`'8'` shortcut, using JavaScript's
  string comparison and `parseInt`.
- `dashboard.dfy` (`Dashboard`): the mutable state as a class over an `array`.
  Its methods change the array in place. Each mutating method is proved to
  leave the array equal to the matching pure function of the array before, and
  to keep the catalog's ids, names and types in place. The lookup loop is proved
  equal to the lookup function, and changing the filter touches only the filter.
- `auth.dfy` (`Auth`): registration validation, the login decision and the
  session marker, as a class over a user sequence and an optional current user.
- `wrappers.dfy` (`Wrappers`): `Option`, which stands for JavaScript's `null`.

The model follows the code:

- Value setters do not clamp values to the slider ranges (16–30, 0–100).
- Value setters do not reject Security devices.
- An unrecognised filter string is accepted, and the view under it is empty.

`Math.round(sum / n)` is modelled exactly over integers as
`floor((2·sum + n) / (2·n))`. That is the nearest integer, with halves rounded
up.

## Model

| member | source | states |
|---|---|---|
| Devices.Catalog | script.js:2-67 | eight devices with ids 1..8 in order, all off; the value is absent exactly for Security devices |
| Devices.CatalogWellFormed | script.js:2-67 | catalog ids are unique and no Security device carries a value |
| Devices.FirstIndex | script.js:205 | `find` by id: the result is a position holding that id with no earlier one, or none when no device has the id |
| Devices.FirstIndexOfUnique | script.js:205 | with unique ids, looking up the id of device i finds i |
| Devices.FirstIndexSameFrame | script.js:205 | lookup depends only on the ids, so it agrees on lists with the same ids, names and types |
| Devices.Toggled | script.js:204-207 | toggling keeps ids/names/types and every value; devices with another id are unchanged; an unknown id changes nothing; Security devices stay value-free |
| Devices.ToggledFlipsOnlyTarget | script.js:204-207 | with unique ids, exactly the device with that id has its status negated |
| Devices.ToggledTwice | script.js:207 | toggling the same id twice restores the list |
| Devices.ValueSet | script.js:226-256 | a setter keeps ids/names/types and every status; other ids are unchanged; an unknown id is a no-op |
| Devices.ValueSetTarget | script.js:228-229 | with unique ids, the targeted device holds exactly the given integer, with no clamping |
| Devices.ValueSetOverrides | script.js:226-256 | a second setter call on the same id overrides the first |
| Devices.ValueSetKeepsSecurityNull | script.js:226-256 | a setter that does not target a Security device keeps every Security device value-free |
| Devices.ValueSetReachesSecurity | script.js:226-235 | setters do not check the type: setting device 3 (Security Camera) gives it a value |
| Devices.AllSet | script.js:323-324 | after `setAll(s)` every status is `s` and every value, id, name and type is unchanged |
| Devices.AutoSet | script.js:333-337 | after auto mode device i has status `coins[i]` and keeps its value, id, name and type |
| Devices.SameFrameKeepsUniqueIds | script.js:2-67 | mutations keep ids in place, so ids stay unique |
| Views.OfType | script.js:101 | the filtered list holds exactly the devices of the list whose type string equals the filter, and is no longer than the list |
| Views.OfTypeAppend | script.js:101 | filtering distributes over concatenation, so catalog order is kept |
| Views.OfTypeSingle | script.js:101 | a single device is kept exactly when its type matches |
| Views.View | script.js:99-101 | the view is no longer than the list and holds exactly its devices when the filter is `'All'`, otherwise exactly those whose type string equals the filter |
| Views.ViewAll | script.js:99-100 | under `'All'` the view is the whole list |
| Views.ViewOfKind | script.js:99-101 | under a type's label the view holds exactly the devices of that type |
| Views.ViewUnknownFilter | script.js:99-101 | a filter that is neither `'All'` nor a type label gives an empty view |
| Views.FilterCounts | script.js:305-309 | each button count is the length of the view for that type |
| Views.FilterCountsSum | script.js:305-309 | the four counts add up to the number of devices |
| Views.ActiveCount | script.js:261 | the active count is at most the total; it equals the total iff all are on and is 0 iff all are off |
| Views.ActiveCountAppend | script.js:261 | counting active devices distributes over concatenation |
| Views.ActiveCountSingle | script.js:261 | a single device counts once exactly when it is on |
| Views.ActiveAfterSetAll | script.js:323-324 | after `setAll(true)` the active count, and the statistics' active count, is the total; after `setAll(false)` it is 0 |
| Views.ClimateReadings | script.js:265-267 | every reading is the value of an active Climate Control device with a value and every such value occurs; the readings are empty iff there is no such device |
| Views.ClimateReadingsAppend | script.js:265-267 | collecting readings distributes over concatenation, so list order and repeated values are kept |
| Views.ClimateReadingsSingle | script.js:265-267 | a single device contributes its value exactly when it is an active Climate Control device with a value |
| Views.SumBounds | script.js:269 | n readings between lo and hi sum to between n·lo and n·hi |
| Views.RoundedMean | script.js:269 | `Math.round(total / n)`: the result r satisfies 2·total − n < 2·n·r ≤ 2·total + n |
| Views.RoundedMeanBounds | script.js:269 | the rounded mean of values between lo and hi lies between lo and hi |
| Views.ComputeStats | script.js:260-273 | active is the number of devices that are on; total is the list length; energy is 15 tenths per active device; the average is `'--'` (None) iff no active Climate Control device has a value, and otherwise the sum of the readings divided by their count, rounded half up |
| Views.AvgTempWithinReadings | script.js:265-270 | the average temperature lies between the lowest and the highest reading |
| Snapshots.Save | script.js:384-392 | one entry per device in list order, with the device's id, status and value; the timestamp is the given time |
| Snapshots.MergeEntry | script.js:402-409 | merging one entry keeps ids/names/types; other ids are untouched; an unknown id is ignored; an entry without a value leaves values alone |
| Snapshots.MergeEntryAt | script.js:403-408 | with unique ids, the entry's device takes the entry's status, and the entry's value exactly when it carries one (a `null` value included) |
| Snapshots.Merged | script.js:402-410 | merging a whole snapshot keeps ids, names and types |
| Snapshots.MergedUntouched | script.js:402-410 | a device whose id no entry mentions keeps every field |
| Snapshots.MergedUnknownIds | script.js:403-404 | entries whose ids are not in the list change nothing |
| Snapshots.MergedKeepsValues | script.js:406-408 | entries without a value never change a value |
| Snapshots.MergedSavePrefix | script.js:386-390 | merging the first k saved entries restores the first k devices and leaves the rest |
| Snapshots.SaveEntryStep | script.js:402-408 | merging saved entry k−1 moves that restored prefix forward by one |
| Snapshots.MergeSavedEntry | script.js:402-409 | merging one entry of a save of a list restores the device it names and leaves every other device as it was |
| Snapshots.MergedSavedEntries | script.js:402-410 | partial round trip: merging any entries of a save, in any order and with repeats, restores exactly the devices they name; every other device keeps its state from before |
| Snapshots.SaveThenMerge | script.js:384-410 | round trip: merging a save of a list onto one with the same ids, names and types gives back the saved list |
| Snapshots.CatalogRestores | script.js:397-410 | a fresh catalog merged with a save of any mutated catalog equals that catalog |
| Keyboard.InRange | script.js:430 | the guard `key >= '1' && key <= '8'` holds iff the key starts with '1'..'8' and, when it starts with '8', is that one character |
| Keyboard.InRangeShape | script.js:430 | JavaScript's string comparison against `'1'` and `'8'` admits exactly those keys |
| Keyboard.LeadingDigits | script.js:431 | the parsed prefix is the longest run of leading decimal digits |
| Keyboard.ParseLeadingInt | script.js:431 | `parseInt` of a key starting with a digit: at least 1 without a leading zero, at least 10 when a second digit follows, and the digit itself when no digit follows |
| Keyboard.DecimalValueLower | script.js:431 | a numeral without a leading zero is ≥ 1, and ≥ 10 with two or more digits |
| Keyboard.KeyTarget | script.js:429-431 | a target id exists iff the key passes the guard, and it is then ≥ 1 |
| Keyboard.KeyTargetSmallId | script.js:430-432 | a key names an id 1..8 iff it is a digit '1'..'8' alone or followed by a non-digit (not after '8'); the id is that digit |
| Keyboard.DigitKeys | script.js:427-433 | the one-character keys '1'..'8' name ids 1..8, and every other one-character key names none |
| Dashboard.Dashboard.constructor | script.js:2-70 | the initial state is the catalog with filter `'All'` |
| Dashboard.Dashboard.FindDevice | script.js:205 | the `find` loop returns the first position holding the id, or none |
| Dashboard.Dashboard.ToggleDevice | script.js:204-207 | the array afterwards is `Toggled` of the array before; the catalog frame is kept |
| Dashboard.Dashboard.SetDeviceValue | script.js:226-256 | the array afterwards is `ValueSet` of the array before |
| Dashboard.Dashboard.ChangeTemp | script.js:226-229 | stores the temperature unchecked: `ValueSet` of the array before |
| Dashboard.Dashboard.ChangeBrightness | script.js:238-241 | stores the brightness unchecked: `ValueSet` of the array before |
| Dashboard.Dashboard.ChangeVolume | script.js:249-252 | stores the volume unchecked: `ValueSet` of the array before |
| Dashboard.Dashboard.SetAll | script.js:323-324 | the array afterwards is `AllSet` of the array before |
| Dashboard.Dashboard.AutoMode | script.js:333-337 | the array afterwards is `AutoSet` of the array before and the coin flips |
| Dashboard.Dashboard.Visible | script.js:99-101 | the rendered list holds the array's devices under the current filter: all of them under `'All'`, otherwise those whose type string equals the filter |
| Dashboard.Dashboard.FilterDevices | script.js:285-286 | only the current filter changes, to the given string; the device array and its catalog frame are untouched, and the rendered list becomes the view of the array under the new filter |
| Dashboard.Dashboard.MergeSaved | script.js:402-409 | the array afterwards is `MergeEntry` of the array before |
| Dashboard.Dashboard.MergeAll | script.js:402-410 | the loop over the saved entries leaves the array as `Merged` of the array before and the entries |
| Dashboard.Dashboard.LoadState | script.js:397-414 | no snapshot (or one that did not parse) changes nothing; otherwise the array becomes `Merged` of the array before |
| Dashboard.Dashboard.HandleKey | script.js:428-435 | a key that fails the guard changes nothing; otherwise the device with the parsed id is toggled, and an unknown id is a no-op |
| Auth.FindUser | auth.js:42 | `find` by username: the first record with that name, or none when there is none |
| Auth.CheckRegistration | auth.js:75-101 | the outcome is decided by the first failing check, in order: missing field, username < 3, password < 4, mismatch, name taken; registration succeeds iff all pass |
| Auth.CheckLogin | auth.js:36-52 | missing input, then unknown username, then the first match's password decide failure; success iff that password matches |
| Auth.NewUser | auth.js:104-110 | the new record holds the username, password and creation time; its email is null exactly when the email field is empty; `lastLogin` is null |
| Auth.LoginSucceedsForStoredPair | auth.js:41-55 | with unique usernames, login succeeds iff some record holds exactly that username and password |
| Auth.Accounts.constructor | auth.js:4-16 | the state is the stored user list and session marker |
| Auth.Accounts.IsLoggedIn | auth.js:27-29 | logged in iff a session marker is stored |
| Auth.Accounts.FindUserIndex | auth.js:98 | the `find` loop returns the first record with the username, or none |
| Auth.Accounts.Register | auth.js:68-113 | the outcome is `CheckRegistration`; on success exactly one new record (null email when empty, null lastLogin) is appended; on rejection the list is unchanged; usernames stay unique |
| Auth.Accounts.Login | auth.js:32-60 | the outcome is `CheckLogin`; a failure changes nothing; success sets the session to the username and stamps `lastLogin` on the first matching record only |
| Auth.Accounts.SetCurrentUser | auth.js:18-24 | a non-empty name is stored as the session; `null` or `''` clears it; logged in iff a non-empty name was given |
| Auth.Accounts.Logout | auth.js:181-183 | afterwards no one is logged in and the user list is unchanged |
| Auth.Accounts.CurrentUserInfo | auth.js:197-203 | none when no one is logged in or the session marker is empty; otherwise the first stored record with the session's username, and none only when no record has it |

## Left out

- Presentation is not modelled. This covers `createDeviceCard`, the DOM part of `renderDevices`, button highlighting in `filterDevices`, `showNotification`, `updateLastTime`, `showError`, `showSuccess`, the form switching and `togglePassword`. The device `icon` field is presentation only and is dropped.
- Browser storage and JSON text are not modelled. Snapshots and user lists are Dafny values. `LoadState(None)` stands for nothing stored, text that does not parse, and parsed text without a `devices` array (such as `{}` or `null`), where the loop throws before touching a device and the error is caught.
- A snapshot whose array holds a malformed entry (for example `null`) throws partway through the loop in the source. The earlier entries stay applied. The model does not capture this partial merge.
- Each snapshot entry's `status` is typed `bool`. A stored non-boolean status is not modelled.
- The effect of a mutation on the rest of the page is not modelled: the save it triggers, the re-render and the statistics refresh. The same holds for `initDashboard`'s orchestration.
- Timers and browser signals are not modelled. This covers the periodic save, `setTimeout` animations and redirects, `window.location`, `checkAuth`'s redirect, and `navigator.onLine` with `updateSystemStatus`.
- `Math.random` is not modelled. Auto mode takes one boolean per device as input.
- Floating point is not modelled. Energy is an integer count of tenths of a kWh, 15 per active device. The mean is exact rational rounding, so floating-point error in `sum / n` is not captured.
- `Date.now()` and `toISOString()` are not modelled. They are parameters (`now`).
- `trim()` is not modelled. The source trims the username and email fields; the model takes them already trimmed. Passwords are not trimmed in the source and are taken as typed here too.
- String lengths count characters. JavaScript's `.length` counts UTF-16 code units.
- `parseInt` of slider strings is not modelled. The setters take an integer, and a `NaN` result is not captured. For keys, `parseInt` is modelled only for strings starting with a digit, which is all the guard admits.
- Device records are immutable values stored in the array. Updating a record replaces the array element. The identity of the JavaScript objects is not captured, and nothing else in the code holds them.
- In the source, `getUsers` and `saveUsers` read and write the user list around each call. The model holds the list in a field instead.
- Auth.Accounts.CurrentUserInfo: the source returns `null` when no one is logged in and `undefined` when no record matches. Both are `None` here.
