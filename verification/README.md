# Pregnancy-OSC core, modelled in Dafny

Pregnancy-OSC relays OSC (Open Sound Control) messages between VRChat and a
small desktop monitor. It keeps one gestation record per avatar: conception
time, duration, duration unit and child count. It detects whether the current
avatar carries the `/CONTENTS/PregnancySave` parameter subtree by reading the
peer's OSCQuery metadata over HTTP through a small time-limited cache. Then it
dispatches inbound parameter messages onto the working record, saves it, and
sends corrective and periodic messages back.

This project models that core as immutable datatypes and pure state-transition
functions:

- `Gestation` (gestation.dfy): the `GestationType` unit enum, its discriminants,
  `seconds_per_unit`, the `u8` conversions, and the `ChildInfo` record with its
  default.
- `ChildRecord` (child_record.dfy): the mutators of the working-record cell
  (`child_counter`, `set_child_count`, `set_gestation_type`, …) and the rules of
  the Add Child and Remove Child buttons. The outbound messages they send are
  returned as a list.
- `Progress` (progress.dfy): `get_gestation_progress_fraction` and the integer
  decomposition and pluralisation of `format_duration_human`.
- `OscServer` (osc_server.dfy): OSC arguments and their `Debug` text,
  `auto_convert`, the metadata base URL, the direct-socket send target with its
  `127.0.0.1:9000` fallback, and the choice of send route.
- `OscQueryCache` (osc_query_cache.dfy): the cache state machine. It covers the
  5 s time-to-live, the 500 ms debounced `clear_avatar` and the lenient error
  paths. Clock readings are integer milliseconds. What each HTTP request
  returns is an input: a transport error, a malformed body, or a parsed JSON
  value.
- `PregnancyHandler` (pregnancy_handler.dfy): the avatar-detection transition,
  `check_avatar_oscquery` built from the cache and the transition, `save_data`,
  the per-address dispatch of `PacketHandler::handle`, the window's buttons, and
  one wake-up of the broadcast loop.
- `Json` (json.dfy): the parts of serde_json's `Value` that the code reads.
  `Decimal` (decimal.dfy): Rust's integer `Display` and `str::parse`.
  `Wrappers` (wrappers.dfy): `Option` and `Result`.

The process-wide cells are explicit values passed in and returned. These are
`SystemActive`, `ChildData`, the cache, the endpoint registry and the save
file, which is an in-memory `map<string, ChildInfo>`. Wall-clock time is whole
seconds.

A panic of the source (an `unwrap` or `expect` that fails) is a
`Failure(Fault)` result here. After a failure the handler's thread is gone, and
the model says nothing about the world it leaves behind.

Some behaviours of the code worth stating:

- The progress fraction is capped at 1 but has no lower clamp. It is negative
  when the clock reads earlier than the conception time. With a positive-zero
  length it is 1 once the conception time has passed and negative infinity
  before it.
- Child-count messages can set any `u8` count. Only the Add Child button stops
  at 12.
- `SystemActive` starts as `Some(false)` and is never `None`, so it is a plain
  flag here.
- The invariant "conception time set exactly while there are children" is not
  checked by the code on records loaded from the store. The model proves that
  the child-count rule, Add Child, Remove Child and the duration and unit
  setters preserve it. The primitive setters `set_child_count`,
  `set_conception_time` and `clear_conception_time` can break it on their own.

## Model

| member | source | states |
|---|---|---|
| `Gestation.ToU8` | src/pregancy_handler.rs:144-148 | a unit's `u8` (and `i32`) value is its discriminant, at most 4 |
| `Gestation.TryFromU8` | src/pregancy_handler.rs:125-138 | succeeds exactly for 0..4, with the unit whose discriminant is the input; above 4 it fails with "Invalid value for TimeUnit" |
| `Gestation.SecondsPerUnit` | src/pregancy_handler.rs:104-112 | every unit is a positive whole number of minutes in seconds |
| `Gestation.UnitRatios` | src/pregancy_handler.rs:101-112 | Mins is 60 s, an hour is 60 minutes, a day 24 hours, a week 7 days and a month 30 days |
| `Gestation.TryFromToU8` | src/pregancy_handler.rs:125-148 | `try_from(u8::from(t)) == Ok(t)` for every unit |
| `Gestation.ToU8Injective` | src/pregancy_handler.rs:93-99 | distinct units have distinct discriminants |
| `Gestation.DefaultConsistent` | src/pregancy_handler.rs:24-33 | the default record (no conception time, 8, Hours, 0 children) satisfies the record invariant |
| `ChildRecord.ChildCounter` | src/pregancy_handler.rs:321-328 | a value at or below the count changes nothing and sends nothing; a larger one becomes the count and is announced; an existing conception time is kept, a missing one is stamped with now only when the count grows; duration and unit are untouched; an empty cell stays empty |
| `ChildRecord.CountOf` | src/pregancy_handler.rs:348-351 | the count of the working record, or 0 when there is none |
| `ChildRecord.ConceptionOf` | src/pregancy_handler.rs:359-362 | the conception time of the working record, or none when there is no record |
| `ChildRecord.SetChildCount` | src/pregancy_handler.rs:352-358 | the ChildCount message goes out even when the cell is empty; a record takes the new count |
| `ChildRecord.SetChildCountRestores` | src/pregancy_handler.rs:348-358 | the count read back after a set is the count set (0 for an empty cell), and setting the old count again restores the cell |
| `ChildRecord.SetConceptionTime` | src/pregancy_handler.rs:369-374 | sets the conception time of a record; an empty cell stays empty |
| `ChildRecord.ClearConceptionTime` | src/pregancy_handler.rs:363-368 | clears the conception time of a record; an empty cell stays empty |
| `ChildRecord.ConceptionTimeSetters` | src/pregancy_handler.rs:359-374 | the time read back after a set is the time set; a clear forgets any earlier set, a set overrides a clear, and neither changes the count |
| `ChildRecord.PrimitiveSettersConsistent` | src/pregancy_handler.rs:352-374 | on a consistent record, a set conception time keeps it consistent while there are children, and a clear followed by a count of 0 keeps it consistent |
| `ChildRecord.SetGestationTime` | src/pregancy_handler.rs:379-384 | replaces only the duration; an empty cell stays empty |
| `ChildRecord.SetGestationType` | src/pregancy_handler.rs:389-394 | only the unit changes; an out-of-range raw value stores Hours; an in-range one stores the unit with that discriminant; an empty cell stays empty |
| `ChildRecord.SetGestationTypeRoundTrip` | src/pregancy_handler.rs:389-394 | setting the unit by a unit's discriminant stores exactly that unit |
| `ChildRecord.AddChild` | src/pregancy_handler.rs:608-618 | a missing conception time is stamped even at the limit; below 12 children the count rises by one, is announced and saved; at or above 12 nothing is saved; the count never rises above 12 |
| `ChildRecord.RemoveChild` | src/pregancy_handler.rs:619-630 | count 0 is a no-op; count 1 becomes 0 and clears the conception time; a larger count drops by one and keeps the conception time; every removal is announced and saved |
| `ChildRecord.RemoveUndoesAdd` | src/pregancy_handler.rs:608-630 | below the limit, removing the child just added restores a consistent record exactly |
| `ChildRecord.ChildCounterConsistent` | src/pregancy_handler.rs:321-328 | the child-count rule keeps "conception time set exactly while there are children" |
| `ChildRecord.AddChildConsistent` | src/pregancy_handler.rs:608-618 | Add Child keeps the record invariant |
| `ChildRecord.RemoveChildConsistent` | src/pregancy_handler.rs:619-630 | Remove Child keeps the record invariant |
| `ChildRecord.SettersConsistent` | src/pregancy_handler.rs:379-394 | changing the duration or the unit keeps the record invariant |
| `Progress.ProgressFraction` | src/pregancy_handler.rs:410-426 | a finite value is never above 1; 0 without children or without a conception time; with a positive length it is non-negative once the conception time has passed, and is 1 exactly when the elapsed time covers the length; with a positive-zero length it is 1 from the conception time on, and negative infinity exactly before it |
| `Progress.ProgressMonotone` | src/pregancy_handler.rs:410-426 | with a positive length, progress never decreases as time passes |
| `Progress.Decompose` | src/pregancy_handler.rs:443-456 | months·2592000 + days·86400 + hours·3600 + minutes·60 + seconds equals max(0, input), with days < 30, hours < 24, minutes < 60, seconds < 60 |
| `Progress.DecomposeTotal` | src/pregancy_handler.rs:443-456 | the decomposition is unique: decomposing the total of any normal breakdown gives it back |
| `Progress.Phrases` | src/pregancy_handler.rs:458-490 | between one and five phrases |
| `Progress.PhrasesMatchComponents` | src/pregancy_handler.rs:458-490 | the phrases are those of the non-zero components, largest unit first, or the single phrase for 0 seconds when there is none |
| `Progress.UnitPhraseShape` | src/pregancy_handler.rs:458-489 | a phrase is the count's decimal, which reads back as the count, a space, then the unit name, plural exactly when the count is not 1 |
| `Progress.PhraseCount` | src/pregancy_handler.rs:458-490 | one phrase per non-zero component, or the single "0 seconds" phrase when all are zero |
| `Progress.FormatDurationHuman` | src/pregancy_handler.rs:443-493 | a duration of zero or less reads "0 seconds"; a positive one has at least one non-zero component and reads as their phrases joined by ", " |
| `Progress.FormatDocExample` | src/pregancy_handler.rs:441-493 | 5457906 seconds reads "2 months", "3 days", "4 hours", "5 minutes", "6 seconds", joined by ", " |
| `Decimal.NatToString` | src/osc_server.rs:141 | decimal text is digits only, with no leading zero |
| `Decimal.IntToString` | src/osc_server.rs:208 | an integer's text starts with '-' exactly when it is negative, followed by the magnitude's decimal |
| `Decimal.NatToStringRoundTrip` | src/osc_server.rs:207-208 | reading a number's decimal text back gives the number |
| `Decimal.ParseInteger` | src/osc_server.rs:207 | all-digit text parses to its value when that lies in the range, and fails otherwise; a leading '+' gives the same result for the digits after it; a leading '-' gives the negated value for a signed type and always fails for an unsigned one; nothing else parses |
| `Decimal.ParseIntToString` | src/pregancy_handler.rs:165 | parsing an integer's printed text gives it back exactly when the target type holds it (in range, and non-negative for an unsigned type), and fails otherwise |
| `Decimal.ParseRejectsLeadingJunk` | src/pregancy_handler.rs:165 | text starting with anything but a digit or sign never parses as an integer |
| `Decimal.ParseBool` | src/osc_server.rs:213 | only "true" and "false" parse, and print back as themselves |
| `OscServer.DebugArgs` | src/pregancy_handler.rs:160 | the `Debug` text of an argument list is bracketed: `[]` for none and `[a]` for one |
| `OscServer.DebugArgsCons` | src/pregancy_handler.rs:160 | with two or more arguments, the first argument's text comes first, then ", ", then the rest |
| `OscServer.AutoConvert` | src/osc_server.rs:192-218 | returns nothing unless the input starts with '[' and ends with ']' |
| `OscServer.AutoConvertInt` | src/osc_server.rs:203-208 | `[Int(s)]` gives (Int, the canonical decimal of n) when s parses as an i16 n, and nothing otherwise |
| `OscServer.AutoConvertBool` | src/osc_server.rs:209-214 | `[Bool(s)]` gives (Bool, s) when s is "true" or "false", and nothing otherwise |
| `OscServer.AutoConvertUnwrapped` | src/osc_server.rs:197-214 | inner text starting with Float, Int or Bool but without the `(`…`)` wrapper gives nothing |
| `OscServer.AutoConvertUnknown` | src/osc_server.rs:215-216 | any other bracketed input gives (Unknown, the whole input, brackets included) |
| `OscServer.AutoConvertIntArg` | src/osc_server.rs:203-208 | the text of a one-integer argument list converts to the integer's decimal when it fits an i16, and to nothing otherwise |
| `OscServer.AutoConvertBoolArg` | src/osc_server.rs:209-214 | the text of a one-boolean argument list converts to "true" or "false" |
| `OscServer.SplitJoinHostPort` | src/osc_server.rs:177 | `host:port` splits back into the same host and port, whatever the host contains |
| `OscServer.SetVrcAddress` | src/osc_server.rs:128-134 | after registering (h, p) the base URL is `http://h:p` |
| `OscServer.GetOscQuery` | src/osc_server.rs:136-142 | a base URL exists exactly when an endpoint is registered, and it starts with `http://` |
| `OscServer.GetOscQueryRoundTrip` | src/osc_server.rs:136-142 | the registered host and port can be read back from the base URL |
| `OscServer.FallbackTargetIsLocalDefault` | src/osc_server.rs:178 | the fallback target is host 127.0.0.1, port 9000 |
| `OscServer.SendTarget` | src/osc_server.rs:173-178 | the direct-socket target names the registered host and port, or 127.0.0.1 and 9000 when none is registered |
| `OscServer.SendRoute` | src/osc_server.rs:144-190 | a managed session always wins, with recipients `VRChat-Client-*`; otherwise the bound socket sends to the target; with neither the send panics |
| `OscQueryCache.New` | src/osc_query_cache.rs:18-25 | all four fields start empty |
| `OscQueryCache.NewCacheFetches` | src/osc_query_cache.rs:18-87 | a new cache sends both queries to the network, and a clear leaves it unchanged |
| `OscQueryCache.Elapsed` | src/osc_query_cache.rs:29 | elapsed time is the difference of the readings, and 0 when the later reading is earlier, as `duration_since` saturates |
| `OscQueryCache.ClearAvatar` | src/osc_query_cache.rs:26-36 | a no-op without a fetch time or within 500 ms of it; otherwise id, name and tree are cleared and the fetch time becomes now |
| `OscQueryCache.GetAvatarParameters` | src/osc_query_cache.rs:59-87 | a fresh tree (fetch time and tree both present, under 5 s old) comes back unchanged with no request; without a base URL it returns Null and changes nothing; otherwise it requests `{base}/avatar/parameters` and clears the id; a parsed body is cached, stamped with now and returned; a malformed body returns Null and keeps fetch time and tree; a transport error propagates |
| `OscQueryCache.GetAvatarId` | src/osc_query_cache.rs:37-58 | a known id is returned with no request; without a base URL it returns none; otherwise it requests `{base}/avatar/change`; a parsed body stores and returns the string at `VALUE[0]`, or none; a malformed body returns the empty string and stores nothing |
| `OscQueryCache.ParametersHitIdempotent` | src/osc_query_cache.rs:60-80 | within 5 s of a successful fetch, a second call returns the same tree, changes nothing and makes no request, whatever the network would say |
| `OscQueryCache.ParametersExpire` | src/osc_query_cache.rs:60-72 | 5 s or more after the last fetch, a call with a base URL makes a request again |
| `OscQueryCache.ClearDebounced` | src/osc_query_cache.rs:26-36 | a clear within 500 ms of a successful fetch is ignored |
| `OscQueryCache.AvatarIdRemembered` | src/osc_query_cache.rs:37-52 | once an id has been read from a JSON body, later calls return it with no request |
| `OscQueryCache.NoRequestNoDependence` | src/osc_query_cache.rs:59-72 | when no request is made, the answer and the cache do not depend on the network |
| `Json.AvatarIdField` | src/osc_query_cache.rs:50 | `json["VALUE"][0].as_str()` is present exactly when VALUE is an array whose first element is a string, and it is that string |
| `Json.ArrayIndex` | src/utils.rs:2-4 | a pointer token is an array index exactly when it is a non-empty run of digits with no leading zero (except "0" itself), and then it is the digits' value |
| `Json.ArrayIndexOfNat` | src/utils.rs:2-4 | the canonical decimal of every index is accepted as that index |
| `Json.HasPregnancySaveShape` | src/pregancy_handler.rs:227 | the subtree test holds exactly when the document is an object whose CONTENTS member is an object holding PregnancySave |
| `Json.NullLacksPregnancySave` | src/osc_query_cache.rs:70 | the Null that the cache returns on its soft failures never carries the subtree |
| `PregnancyHandler.AvatarTransition` | src/pregancy_handler.rs:223-278 | without the subtree: inactive, record cleared, store untouched, nothing sent; with it: the stored record, or a default record that is inserted, becomes the working record; the handler is active; GestationTime and Gestation are sent, then ChildCount and IsPregnant(true) only when the count is positive |
| `PregnancyHandler.ResyncMessages` | src/pregancy_handler.rs:252-270 | a loaded record resyncs with GestationTime and Gestation, then ChildCount and IsPregnant(true) only when it has children |
| `PregnancyHandler.AvatarKey` | src/pregancy_handler.rs:235-238 | the avatar id is whatever the cache yields, and a failed or absent id is a panic |
| `PregnancyHandler.SaveData` | src/pregancy_handler.rs:288-302 | succeeds exactly when an id is available, the store has an entry for it and there is a working record; then only that entry changes, to the working record |
| `PregnancyHandler.CheckAvatar` | src/pregancy_handler.rs:223-278 | it fails exactly when the parameter fetch fails, or when the subtree is present and no avatar id is available; on success the handler is active exactly when the fetched tree carries /CONTENTS/PregnancySave; when active, the record is the stored one or a default one, which is then added to the store, and its resync messages are sent; when inactive, nothing is sent, the record is dropped and the store is left alone; entries already stored never change |
| `PregnancyHandler.ArgTextIntAsU8` | src/pregancy_handler.rs:160-165 | a one-integer argument yields a count exactly when the integer fits a u8 |
| `PregnancyHandler.ArgText` | src/pregancy_handler.rs:160-161 | the raw `Debug` text when `auto_convert` declines; one integer reads as its decimal when it fits an i16 and as the raw text otherwise; one boolean reads as "true" or "false" |
| `PregnancyHandler.Handle` | src/pregancy_handler.rs:157-189 | bundles and unknown addresses change nothing; Childcount, GestationTime and Gestation change nothing while inactive; `/avatar/change` always re-runs the avatar check; only that address changes the active flag |
| `PregnancyHandler.HandleChildcount` | src/pregancy_handler.rs:163-167 | while active, an in-range count goes through the child-count rule and the new record is saved under the current avatar |
| `PregnancyHandler.HandleChildcountOutOfRange` | src/pregancy_handler.rs:163-166 | while active, an integer outside 0..255 makes the handler panic |
| `PregnancyHandler.HandleGestationTime` | src/pregancy_handler.rs:169-175 | while active, text that parses as an `f32` replaces only the duration and is saved under the current avatar, and a failed save fails; text that does not parse is a panic |
| `PregnancyHandler.HandleGestation` | src/pregancy_handler.rs:176-181 | while active, a unit message changes only the unit, to the one with that discriminant or Hours when out of range, and the record is saved under the current avatar; it fails exactly when the save fails; nothing is sent |
| `PregnancyHandler.HandleGestationOutOfRange` | src/pregancy_handler.rs:176-179 | while active, an integer outside 0..255 makes the handler panic |
| `PregnancyHandler.UiStep` | src/pregancy_handler.rs:606-646 | Recheck Avatar re-runs the avatar check; without a record the record buttons do nothing; the buttons apply the add and remove rules and never change the active flag |
| `PregnancyHandler.UiAddChildSaves` | src/pregancy_handler.rs:608-618 | Add Child below 12 children saves the record with one more child under the current avatar and announces the new count; a failed save fails |
| `PregnancyHandler.UiAddChildAtLimit` | src/pregancy_handler.rs:608-618 | Add Child at 12 or more children only stamps a missing conception time: nothing is sent and the store is not written |
| `PregnancyHandler.UiRemoveChildSaves` | src/pregancy_handler.rs:619-630 | Remove Child with children saves the record with one child fewer under the current avatar and announces the new count; a failed save fails |
| `PregnancyHandler.UiRemoveChildAtZero` | src/pregancy_handler.rs:619-630 | Remove Child with no children changes nothing and sends nothing |
| `PregnancyHandler.BroadcastTick` | src/pregancy_handler.rs:203-219 | one message goes out exactly when the handler is active with children, to PregnancySave, carrying the progress fraction; a finite value is at most 1 |
| `PregnancyHandler.BroadcastZeroLength` | src/pregancy_handler.rs:203-209 | with a positive-zero length, the broadcast is 1 once the conception time has passed and negative infinity before it |
| `PregnancyHandler.InitialStateSilent` | src/pregancy_handler.rs:150-153 | before any avatar check, nothing is broadcast and a record button does nothing |
| `PregnancyHandler.CheckAvatarWithoutSubtree` | src/pregancy_handler.rs:227-276 | when the tree lacks the subtree: inactive, no record, nothing sent, store untouched |
| `PregnancyHandler.CheckAvatarTwoChildren` | src/pregancy_handler.rs:227-270 | a stored record of 2 children and 8 Hours sends GestationTime 8, Gestation 0, ChildCount 2 and IsPregnant true, in that order |
| `PregnancyHandler.HandleChildcountScenario` | src/pregancy_handler.rs:163-167 | a count of 3 over a stored 2 with no conception time stamps now, sets 3 and writes the store |

## Left out

- Serialisation of `ChildInfo` with serde and chrono, including the RFC 3339 timestamp round trip (src/pregancy_handler.rs:35-86). That behaviour lives in library code.
- File persistence (`read_data`, `save_data_writer`, `get_save_path`). The store is an in-memory map, and a write failure is not modelled.
- The window: rendering, resizing, the DragValue duration editor, and the unit change that rescales the duration in floating point (src/pregancy_handler.rs:557-561). Also left out: the Reset Pregnancy button, `GestationType::to_string`, and the per-frame `get_avatar_id` call that draws the avatar label. Only the Add Child, Remove Child and Recheck Avatar rules are modelled.
- `calculate_future_time`: it needs an f64 to i64 truncation and is used only by the window.
- `f32` text handling. The `Float(..)` branch of `auto_convert`, the `f32` parse of GestationTime messages and the `Debug` text of floats take the conversions as a `FloatFormat` parameter.
- The `Debug` text of rosc argument types other than Int, Float and Bool. It is carried as given text, constrained only so that it never starts like one of those three.
- `f32`/`f64` precision. Durations and progress are reals, and the `as f32` rounding of the broadcast value is not modelled.
- IEEE arithmetic in general. Only the positive-zero length case of the progress division is modelled, as 1 or negative infinity, which is what `f64::min(1.0)` makes of the quotient there.
- Signed zero: a `-0` duration swaps the two zero-length cases (negative infinity from the conception time on, 1 before it). Durations are reals here, which have a single zero.
- Sockets, discovery and async plumbing: the UDP bind and receive loop of `OscServer::start`, `packet_handler`'s session and its `on_connect` registry write (which has the effect of `SetVrcAddress`), the Tokio spawn and the wire send. `get_osc_port` and `set_osc_port` are left out too.
- The 5 s warm-up sleep and the broadcast loop's timing. `BroadcastTick` is one wake-up.
- Mutexes, `lazy_static` globals and lock poisoning. After a panic, the state left behind is not modelled.
- `json_path_exists` on a general pointer string. The one pointer the code uses, "/CONTENTS/PregnancySave", is given as its reference tokens. JSON numbers are reals, and array indices are not limited to `usize`.
- `Instant` has nanosecond precision. Clock readings here are whole milliseconds.
- The `avatar_name` field is never set by the source. It is only carried and cleared.
- src/main.rs: process bootstrap and environment parsing.
