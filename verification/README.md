# MBAutomationSwift in Dafny

A model of the automation plugin of the MBurger iOS SDK, with proofs about it.
The plugin shows in-app messages and local push notifications when the
triggers attached to a message fire. Trigger kinds are:

- an event sent by the app;
- a screen viewed a number of times;
- a tag of the audience changing;
- the user entering or leaving a region;
- the app being opened a number of times;
- the user coming back after days of inactivity.

It also queues the viewed screens and sent events in a local database and
uploads them in batches.

The model follows the `MBAutomationSwift` revision of the plugin. It takes
the database and the event record from the `MBAutomation` revision, since
the newer one has no copy of them. It also covers the parts of the audience
plugin the triggers read: tags and sessions.

**Modules**

- **Triggers**
  - `Triggers` holds the trigger type and the base trigger.
  - `EventTriggers`, `ViewTriggers`, `TagChangeTriggers`, `LocationTriggers`, `AppOpeningTriggers` and `InactiveUserTriggers` hold the variants of the `Trigger` datatype. Each variant has:
    - a pure step that returns the updated trigger and whether it changed;
    - its validity check;
    - its API decoder;
    - its stored-record encoder and decoder.
  - `TriggerFactory` holds the two factories of the messages manager.
  - `MessageTriggers` holds the any/all trigger set and its id-based merge.
- **Messages**
  - `Messages` holds the message records as the plugin stores them. The colour strings they contain are handled in `HexColor`.
  - `MessageStore` holds:
    - the messages file;
    - the merge on refresh;
    - the snapshot de-duplication of `checkMessages`;
    - the split between in-app and push messages.
  - `MessagesManager` holds the event, tag, location and screen-view handlers, and the deferred view completions.
- **Push notifications**
  - `PushNotifications` holds the list of shown pushes, the pending notification requests and the scheduling decision.
- **Telemetry**
  - `TrackingModels` holds the view and event records.
  - `TrackingDb` models the two SQLite tables as abstract tables:
    - insert with an auto-increment id;
    - list by ascending timestamp;
    - delete by a list of ids.
  - `TrackingManager` models the flush as a state machine over the database and server hops.
- **Audience**
  - `AudienceTags` and `Audience` hold the tags and the session counter with its start dates.
- **Plugin**
  - `Automation` is the plugin object that wires these together.

**Modelling choices**

- Time is an integer number of milliseconds (module `Clock`).
- Persisted and API dictionaries are `map<string, JValue>` (module `Json`).
- A JSON text that the code writes and reads back is kept as the value it encodes.
- The state the Swift code keeps in files, user defaults and timers is a field of a datatype:
  - `MessageStore.State`;
  - `PushNotifications.PushState`;
  - `TrackingManager.State`.
- What the code reads from the device is a parameter (`MessageStore.Env`):
  - the clock;
  - the application state;
  - notification authorisation;
  - whether the notification centre accepts a request.
- The code calls four members that no source file defines. These are function values in `MessageStore.Hooks`, with no contract invented for them:
  - `isValid(message:fromAppStartup:)`;
  - `updatedTrigger(newTrigger:)`;
  - the tri-state status of a tag change;
  - a location trigger's `afterDays`.
- Containment in a region is also a function value in `MessageStore.Hooks`.
- The first-index searches (`MessageTriggers.FirstWithId`, `MessageStore.FirstMessageWithId`, `PushNotifications.IndexOf`, `Audience.FirstIndexOf`) are written once per element type, as the code calls `firstIndex(where:)` separately in each place.

## Model

| member | source | states |
|---|---|---|
| Triggers.TypeRaw | MBAutomationSwift/Triggers/MBTrigger.swift:11-19 | raw values lie in 0..6 and only `unknown` has 6 |
| Triggers.TypeFromRaw | MBAutomationSwift/Triggers/MBTrigger.swift:11-19 | `MBTriggerType(rawValue:)` is defined exactly on 0..6 and inverts `rawValue` |
| Triggers.TypeRawInjective | MBAutomationSwift/Triggers/MBTrigger.swift:11-19 | distinct trigger types have distinct raw values |
| Triggers.CompletionValidUntil | MBAutomationSwift/Triggers/MBEventTrigger.swift:93-98 | `completionDate >= Date()` holds iff a completion date exists and now is not after it |
| Triggers.BaseFromApi | MBAutomationSwift/Triggers/MBTrigger.swift:35-38 | the API constructor keeps only the id ("" when missing) and always has type unknown |
| Triggers.BaseNeverValid | MBAutomationSwift/Triggers/MBTrigger.swift:40-42 | a base trigger is invalid whether or not the check runs at startup |
| Triggers.BaseRecord | MBAutomationSwift/Triggers/MBTrigger.swift:46-49 | the stored record has exactly the keys `id` and `type`, the latter the raw type |
| Triggers.RecordType | MBAutomationSwift/Triggers/MBTrigger.swift:51-55 | a stored type in 0..6 is read as that type; a missing or out-of-range one as unknown |
| Triggers.RecordId | MBAutomationSwift/Triggers/MBTrigger.swift:52 | a stored id is read as written, a missing one as "" |
| Triggers.BaseFromRecord | MBAutomationSwift/Triggers/MBTrigger.swift:51-55 | the stored-record constructor builds a base trigger from the record's id and type |
| Triggers.BaseRoundTrip | MBAutomationSwift/Triggers/MBTrigger.swift:46-55 | a base trigger read back from its own record is unchanged |
| EventTriggers.EventFromApi | MBAutomationSwift/Triggers/MBEventTrigger.swift:47-57 | the API reads `event_name` (default ""), `times` (default 1) and `metadata`; a new trigger has no count and no completion |
| EventTriggers.EventHappened | MBAutomationSwift/Triggers/MBEventTrigger.swift:61-87 | an event with a different name, or with metadata when the trigger has none, changes nothing. An event with the right name and no metadata counts; with metadata on both sides it counts iff they are equal. A counted event raises the count by one (absent counts as 0) and sets the completion to now iff the new count reaches `times`. Only count and completion ever change |
| EventTriggers.EventCompletionWindow | MBAutomationSwift/Triggers/MBEventTrigger.swift:61-98 | the event that makes the count reach `times` makes the trigger valid at that instant and invalid at any later time |
| EventTriggers.RepeatCounts | MBAutomationSwift/Triggers/MBEventTrigger.swift:61-87 | from a fresh trigger, k matching events give a count of k, and a completion date exactly when k > 0 and k >= `times` |
| EventTriggers.EventToRecord | MBAutomationSwift/Triggers/MBEventTrigger.swift:120-133 | the stored record names the event type |
| EventTriggers.EventFromRecord | MBAutomationSwift/Triggers/MBEventTrigger.swift:105-117 | the stored-record constructor builds an event trigger with the stored id and `times` (default 0) |
| EventTriggers.EventRoundTrip | MBAutomationSwift/Triggers/MBEventTrigger.swift:105-133 | an event trigger read back from its record is unchanged, absent count and completion included |
| EventTriggers.TimesDefaults | MBAutomationSwift/Triggers/MBEventTrigger.swift:50-108 | a missing `times` is 1 from the API but 0 from a stored record |
| ViewTriggers.ViewFromApi | MBAutomationSwift/Triggers/MBViewTrigger.swift:47-57 | the API reads `view_name`, `times` and `seconds_on_view` with defaults "", 0 and 0 |
| ViewTriggers.ScreenViewed | MBAutomationSwift/Triggers/MBViewTrigger.swift:61-71 | the trigger reports a change iff the view name matches; a match raises the count by one (absent counts as 0); a mismatch changes nothing; the completion date is never touched |
| ViewTriggers.SetCompleted | MBAutomationSwift/Triggers/MBViewTrigger.swift:73-75 | completing sets the completion date to now and keeps everything else |
| ViewTriggers.ViewCompletionWindow | MBAutomationSwift/Triggers/MBViewTrigger.swift:73-86 | a view trigger completed at t is valid at t and invalid at any later time |
| ViewTriggers.ViewedTimesCounts | MBAutomationSwift/Triggers/MBViewTrigger.swift:61-86 | k views of a fresh trigger's screen give a count of k and leave it without completion and invalid |
| ViewTriggers.ViewToRecord | MBAutomationSwift/Triggers/MBViewTrigger.swift:110-124 | the stored record names the view type |
| ViewTriggers.ViewFromRecord | MBAutomationSwift/Triggers/MBViewTrigger.swift:93-107 | the stored-record constructor builds a view trigger with the stored id, `times` and `secondsOnView` (defaults 0) |
| ViewTriggers.ViewRoundTrip | MBAutomationSwift/Triggers/MBViewTrigger.swift:93-124 | a view trigger read back from its record is unchanged, absent optional fields staying absent |
| TagChangeTriggers.OperatorFromApi | MBAutomationSwift/Triggers/MBTagChangeTrigger.swift:57-58 | the API operator is equality iff the string is "=" |
| TagChangeTriggers.OperatorFromRaw | MBAutomationSwift/Triggers/MBTagChangeTrigger.swift:111-116 | raw 1 is inequality; any other raw value is equality, and 0 and 1 invert `rawValue` |
| TagChangeTriggers.TagChangeFromApi | MBAutomationSwift/Triggers/MBTagChangeTrigger.swift:53-63 | the API reads `tag` and `value` (default "") and maps `operator` "=" to equality, anything else to inequality |
| TagChangeTriggers.TagChanged | MBAutomationSwift/Triggers/MBTagChangeTrigger.swift:70-89 | another tag changes nothing. For the trigger's tag the change is reported iff the value (nil read as "") equals the trigger value under equality, or differs from it under inequality. A reported change sets the completion to now; an unreported one keeps the trigger, completion included |
| TagChangeTriggers.RemovalIsEmptyValue | MBAutomationSwift/Triggers/MBTagChangeTrigger.swift:75 | removing a tag acts exactly like setting it to "" |
| TagChangeTriggers.OperatorsComplementary | MBAutomationSwift/Triggers/MBTagChangeTrigger.swift:76-88 | for the trigger's tag, exactly one of the two operators reports any given value |
| TagChangeTriggers.TagChangeToRecord | MBAutomationSwift/Triggers/MBTagChangeTrigger.swift:124-134 | the stored record names the tag-change type |
| TagChangeTriggers.TagChangeFromRecord | MBAutomationSwift/Triggers/MBTagChangeTrigger.swift:107-121 | the stored-record constructor reads the stored id; a missing operator is equality |
| TagChangeTriggers.TagChangeRoundTrip | MBAutomationSwift/Triggers/MBTagChangeTrigger.swift:107-134 | a tag-change trigger read back from its record is unchanged |
| LocationTriggers.ActionFromString | MBAutomationSwift/Triggers/MBLocationTrigger.swift:23-30 | the action is exit iff the string is "exit" |
| LocationTriggers.ActionFromRaw | MBAutomationSwift/Triggers/MBLocationTrigger.swift:174-175 | raw 1 is exit, any other raw value enter, and 0 and 1 invert `rawValue` |
| LocationTriggers.LocationFromApi | MBAutomationSwift/Triggers/MBLocationTrigger.swift:83-101 | the API reads address, coordinates, radius and delay with defaults "" and 0, and the action is exit iff `action` is "exit" |
| LocationTriggers.TriggerRegion | MBAutomationSwift/Triggers/MBLocationTrigger.swift:145-152 | the region's centre takes the trigger's latitude for both coordinates; the radius is the trigger's and the identifier is the prefix plus the id |
| LocationTriggers.RegionIgnoresLongitude | MBAutomationSwift/Triggers/MBLocationTrigger.swift:147-148 | triggers that differ only in longitude have the same region |
| LocationTriggers.LocationDataUpdated | MBAutomationSwift/Triggers/MBLocationTrigger.swift:108-141 | a completed trigger and an unsatisfied move change nothing. A satisfied move with no delay completes at now and reports a change. With a delay it completes at now plus the delay and reports no change |
| LocationTriggers.FirstFixSatisfies | MBAutomationSwift/Triggers/MBLocationTrigger.swift:126-130 | with no last location the move is satisfied iff the action is enter and the point is inside |
| LocationTriggers.StayingSatisfies | MBAutomationSwift/Triggers/MBLocationTrigger.swift:118-125 | with a last location, enter is satisfied iff both points are inside and exit iff both are outside |
| LocationTriggers.SatisfiedInvalidates | MBAutomationSwift/Triggers/MBLocationTrigger.swift:131-160 | a satisfied update leaves a valid trigger invalid, whatever its delay |
| LocationTriggers.LocationToRecord | MBAutomationSwift/Triggers/MBLocationTrigger.swift:189-202 | the stored record names the location type |
| LocationTriggers.LocationFromRecord | MBAutomationSwift/Triggers/MBLocationTrigger.swift:167-186 | the stored-record constructor reads the stored id; a missing action is enter |
| LocationTriggers.LocationRoundTrip | MBAutomationSwift/Triggers/MBLocationTrigger.swift:167-202 | a location trigger read back from its record is unchanged |
| AppOpeningTriggers.AppOpeningFromApi | MBAutomationSwift/Triggers/MBAppOpeningTrigger.swift:31-37 | the API reads `times` with default 0 |
| AppOpeningTriggers.AppOpeningValidity | MBAutomationSwift/Triggers/MBAppOpeningTrigger.swift:43-49 | the trigger is never valid outside startup; at startup it is valid iff the session counter is at least `times`; with `times` missing from the API it is valid at every startup |
| AppOpeningTriggers.AppOpeningMonotone | MBAutomationSwift/Triggers/MBAppOpeningTrigger.swift:43-49 | a trigger valid at startup stays valid after another session starts |
| AppOpeningTriggers.AppOpeningToRecord | MBAutomationSwift/Triggers/MBAppOpeningTrigger.swift:63-67 | the stored record has exactly the keys id, type and times |
| AppOpeningTriggers.AppOpeningFromRecord | MBAutomationSwift/Triggers/MBAppOpeningTrigger.swift:56-60 | the stored-record constructor reads id and `times` (default 0) |
| AppOpeningTriggers.AppOpeningRoundTrip | MBAutomationSwift/Triggers/MBAppOpeningTrigger.swift:56-67 | the trigger read back from its record is unchanged and the record names the app-opening type |
| InactiveUserTriggers.InactiveUserFromApi | MBAutomationSwift/Triggers/MBInactiveUserTrigger.swift:31-37 | the API reads `days` with default 0 |
| InactiveUserTriggers.InactiveUserNeedsDates | MBAutomationSwift/Triggers/MBInactiveUserTrigger.swift:43-51 | never valid outside startup, nor when the current or the previous session has no start date |
| InactiveUserTriggers.InactiveAfterNewSession | MBAutomationSwift/Triggers/MBInactiveUserTrigger.swift:43-54 | right after a session starts at now, the trigger is valid at startup iff the previous session has a start date at least `days` whole days before now |
| InactiveUserTriggers.InactiveUserToRecord | MBAutomationSwift/Triggers/MBInactiveUserTrigger.swift:68-72 | the stored record has exactly the keys id, type and days |
| InactiveUserTriggers.InactiveUserFromRecord | MBAutomationSwift/Triggers/MBInactiveUserTrigger.swift:61-65 | the stored-record constructor reads id and `days` (default 0) |
| InactiveUserTriggers.InactiveUserRoundTrip | MBAutomationSwift/Triggers/MBInactiveUserTrigger.swift:61-72 | the trigger read back from its record is unchanged and the record names the inactive-user type |
| TriggerFactory.ApiType | MBAutomationSwift/Triggers/MBAutomationMessagesManager.swift:55-74 | exactly the six API type strings name a variant, and none of them names unknown |
| TriggerFactory.TriggerFromApi | MBAutomationSwift/Triggers/MBAutomationMessagesManager.swift:55-74 | a known type string builds that variant; any other string builds the base trigger; the id is always the record's |
| TriggerFactory.TriggerFromRecord | MBAutomationSwift/Triggers/MBAutomationMessagesManager.swift:33-53 | the stored factory builds the variant the stored int names (unknown as fallback) with the stored id |
| TriggerFactory.TriggerToRecord | MBAutomationSwift/Triggers/MBTrigger.swift:46-49 | every stored trigger record holds the trigger's id |
| TriggerFactory.TriggerRoundTrip | MBAutomationSwift/Triggers/MBAutomationMessagesManager.swift:33-53 | every trigger a factory can build is stored and read back unchanged by the stored factory |
| TriggerFactory.ValidOutsideStartup | MBAutomationSwift/Triggers/MBAppOpeningTrigger.swift:43-46 | outside startup only view, event, location and tag-change triggers can be valid |
| MessageTriggers.MethodFromRaw | MBAutomationSwift/Triggers/MBMessageTriggers.swift:85-86 | raw 0 is any; any other raw value is all, and 0 and 1 invert `rawValue` |
| MessageTriggers.MethodFromApi | MBAutomationSwift/Triggers/MBMessageTriggers.swift:38-44 | the API method is any iff the string is "any"; "all", a missing string and any other string give all |
| MessageTriggers.TriggerSetFromApi | MBAutomationSwift/Triggers/MBMessageTriggers.swift:37-54 | a list of dictionaries under `triggers` becomes the factory's triggers, one per entry and in order; anything else gives no triggers |
| MessageTriggers.IsValid | MBAutomationSwift/Triggers/MBMessageTriggers.swift:61-77 | with any, the set is valid iff some trigger is valid; with all, iff every trigger is valid |
| MessageTriggers.EmptyTriggerSet | MBAutomationSwift/Triggers/MBMessageTriggers.swift:76 | an empty set is invalid under any and valid under all |
| MessageTriggers.TriggerSetFromRecord | MBAutomationSwift/Triggers/MBMessageTriggers.swift:84-91 | a missing method is any; a missing or malformed trigger list is empty |
| MessageTriggers.TriggerRecords | MBAutomationSwift/Triggers/MBMessageTriggers.swift:96 | one stored record per trigger, in order |
| MessageTriggers.TriggerSetToRecord | MBAutomationSwift/Triggers/MBMessageTriggers.swift:94-98 | the stored record has exactly the keys method and triggers |
| MessageTriggers.TriggerSetRoundTrip | MBAutomationSwift/Triggers/MBMessageTriggers.swift:84-98 | a trigger set read back from its record keeps its method and every trigger, in order |
| MessageTriggers.FirstWithId | MBAutomationSwift/Triggers/MBMessageTriggers.swift:105 | the index of the first trigger with the id, or none when no trigger has it |
| MessageTriggers.UpdateTriggers | MBAutomationSwift/Triggers/MBMessageTriggers.swift:102-114 | the merged set keeps the stored method and follows the incoming list. An incoming trigger with no stored match is kept as it is; one with a match becomes `updatedTrigger` of the first stored trigger with its id |
| MessageTriggers.UpdateKeepsIdOrder | MBAutomationSwift/Triggers/MBMessageTriggers.swift:102-114 | when merging keeps ids, the result has the incoming ids in incoming order, so stored triggers missing from the refresh are dropped |
| HexColor.ColorFromHex | MBAutomationSwift/Triggers/MBMessage+Saving.swift:284-316 | the string is trimmed of Unicode white space and newlines, and white space after a leading "#" and a "0x" prefix are skipped before the digits; red, green and blue are bits 16-23, 8-15 and 0-7 of the scanned value; a value of 2^32 or more, which traps in the source, gives no colour |
| HexColor.SpaceAfterHashScans | MBAutomationSwift/Triggers/MBMessage+Saving.swift:285-298 | "# ff0000" reads as pure red: the scanner skips the space after the "#" |
| HexColor.UnicodeSpaceScans | MBAutomationSwift/Triggers/MBMessage+Saving.swift:285-298 | a no-break space after the "#", a "0x" prefix and a trailing line separator are all skipped, and the digits read as pure red |
| HexColor.ColorValueRoundTrip | MBAutomationSwift/Triggers/MBMessage+Saving.swift:305-308 | splitting the 24-bit number of a colour into its channels gives the colour back |
| HexColor.HexString | MBAutomationSwift/Triggers/MBMessage+Saving.swift:271-282 | the string written for a colour is "#" and six digits |
| HexColor.ScanHexString | MBAutomationSwift/Triggers/MBMessage+Saving.swift:284-300 | the scanner reads the number `0xRRGGBB` from the string written for a colour |
| HexColor.HexStringRoundTrip | MBAutomationSwift/Triggers/MBMessage+Saving.swift:271-316 | a colour written as a hex string reads back as the same colour |
| Messages.MessageTypeFromRaw | MBAutomationSwift/Triggers/MBMessage+Saving.swift:86 | a stored type is push iff it is 1; anything else reads as in-app |
| Messages.StyleFromRaw | MBAutomationSwift/Triggers/MBMessage+Saving.swift:163 | a stored style in 0..3 reads as that style; anything else as banner-top |
| Messages.LinkTypeFromRaw | MBAutomationSwift/Triggers/MBMessage+Saving.swift:222 | a stored link type is in-app iff it is 1; anything else reads as link |
| Messages.OptColor | MBAutomationSwift/Triggers/MBMessage+Saving.swift:108-109 | a colour is written exactly when present, as its hex string |
| Messages.ColorRoundTrip | MBAutomationSwift/Triggers/MBMessage+Saving.swift:138-141 | a colour written to a record, or its absence, reads back unchanged |
| Messages.ButtonToRecord | MBAutomationSwift/Triggers/MBMessage+Saving.swift:177-199 | the button record always has a title ("" when nil) and a link type (link when nil); `link` is present iff the button has one |
| Messages.ButtonFromRecord | MBAutomationSwift/Triggers/MBMessage+Saving.swift:201-225 | a stored button always has a title (default "") and a link type (default link) |
| Messages.ButtonColorsRoundTrip | MBAutomationSwift/Triggers/MBMessage+Saving.swift:183-212 | a stored button's colours read back as written |
| Messages.ButtonFieldsRoundTrip | MBAutomationSwift/Triggers/MBMessage+Saving.swift:177-225 | a stored button's link, section and block read back as written; title and link type read back with their write defaults |
| Messages.ButtonRoundTrip | MBAutomationSwift/Triggers/MBMessage+Saving.swift:177-225 | a button read back from its record is the button with the defaults filled in |
| Messages.ButtonRecords | MBAutomationSwift/Triggers/MBMessage+Saving.swift:125 | one record per button, in order |
| Messages.ButtonsFromRecords | MBAutomationSwift/Triggers/MBMessage+Saving.swift:159 | one button per record, in order |
| Messages.InAppToRecord | MBAutomationSwift/Triggers/MBMessage+Saving.swift:100-128 | the in-app record always has an id ("" when nil), a style (banner-top when nil) and a duration (0 when nil); buttons only when present |
| Messages.InAppFromRecord | MBAutomationSwift/Triggers/MBMessage+Saving.swift:130-173 | a stored in-app payload reads a missing or non-integer id as 0 and a missing duration as -1 |
| Messages.ButtonsRoundTrip | MBAutomationSwift/Triggers/MBMessage+Saving.swift:125-159 | a list of buttons reads back as the same buttons with their defaults, in order |
| Messages.InAppColorsRoundTrip | MBAutomationSwift/Triggers/MBMessage+Saving.swift:108-154 | the three colours of an in-app payload read back as written |
| Messages.InAppHeaderRoundTrip | MBAutomationSwift/Triggers/MBMessage+Saving.swift:100-137 | id, style, blocking flag and duration read back as written, with 0, banner-top and 0 for missing ones |
| Messages.InAppTextsRoundTrip | MBAutomationSwift/Triggers/MBMessage+Saving.swift:105-173 | title, body and image read back as written |
| Messages.InAppButtonsRoundTrip | MBAutomationSwift/Triggers/MBMessage+Saving.swift:124-159 | the buttons read back with their defaults |
| Messages.InAppRoundTrip | MBAutomationSwift/Triggers/MBMessage+Saving.swift:100-173 | an in-app payload read back from its record is the payload with its write defaults |
| Messages.DurationDefaults | MBAutomationSwift/Triggers/MBMessage+Saving.swift:104-134 | a nil duration is written as 0, while a missing duration reads as -1 |
| Messages.PushToRecord | MBAutomationSwift/Triggers/MBMessage+Saving.swift:229-248 | the push record holds the sent flag under "sent" and never under "sentt" |
| Messages.PushFromRecord | MBAutomationSwift/Triggers/MBMessage+Saving.swift:250-267 | the sent flag is read from "sentt", default false |
| Messages.PushRoundTrip | MBAutomationSwift/Triggers/MBMessage+Saving.swift:229-267 | a push payload reads back with every field except `sent`, which becomes false |
| Messages.InAppValue | MBAutomationSwift/Triggers/MBMessage+Saving.swift:31-33 | an in-app payload is written exactly when present |
| Messages.PushValue | MBAutomationSwift/Triggers/MBMessage+Saving.swift:35-37 | a push payload is written exactly when present |
| Messages.TriggersValue | MBAutomationSwift/Triggers/MBMessage+Saving.swift:39-41 | triggers are written exactly when they are parsed |
| Messages.InAppAt | MBAutomationSwift/Triggers/MBMessage+Saving.swift:71-73 | an in-app payload is read exactly when the key holds a dictionary |
| Messages.PushAt | MBAutomationSwift/Triggers/MBMessage+Saving.swift:75-77 | a push payload is read exactly when the key holds a dictionary |
| Messages.TriggersAt | MBAutomationSwift/Triggers/MBMessage+Saving.swift:79-81 | triggers are read, as parsed triggers, exactly when the key holds a dictionary |
| Messages.MessageToRecord | MBAutomationSwift/Triggers/MBMessage+Saving.swift:13-43 | every message record holds id, type and creation date |
| Messages.IdentityWritten | MBAutomationSwift/Triggers/MBMessage+Saving.swift:14-17 | the record holds the message's id, title and raw type |
| Messages.DescriptionWritten | MBAutomationSwift/Triggers/MBMessage+Saving.swift:16-21 | the record holds the description and the automation flag |
| Messages.ScheduleWritten | MBAutomationSwift/Triggers/MBMessage+Saving.swift:18-29 | the record holds creation date, send-after days and repeat count, and the start and end dates only when present |
| Messages.PayloadsWritten | MBAutomationSwift/Triggers/MBMessage+Saving.swift:31-41 | the record holds the payloads and parsed triggers, each only when present |
| Messages.MessageFromRecord | MBAutomationSwift/Triggers/MBMessage+Saving.swift:45-97 | missing id, title and flag read as 0, "" and false; an unknown type reads as in-app; payloads and triggers are read exactly when their keys hold dictionaries; raw triggers never come back |
| Messages.HeaderRead | MBAutomationSwift/Triggers/MBMessage+Saving.swift:45-55 | id, title, description, type and automation flag read back from any record that holds them |
| Messages.ScheduleRead | MBAutomationSwift/Triggers/MBMessage+Saving.swift:50-69 | dates, send-after days and repeat count read back from any record that holds them |
| Messages.PayloadsRead | MBAutomationSwift/Triggers/MBMessage+Saving.swift:71-81 | payloads and triggers read back, as after a reload, from any record that holds them |
| Messages.MessageRoundTrip | MBAutomationSwift/Triggers/MBMessage+Saving.swift:13-97 | a stored message reads back with id, title, description, type, dates, counters, automation flag and parsed triggers kept; raw triggers are lost, `sent` is false and the in-app payload gets its defaults |
| Messages.SentNotRestored | MBAutomationSwift/Triggers/MBMessage+Saving.swift:233-254 | a push payload marked sent is never marked sent after a reload |
| MessageStore.SavedMessages | MBAutomationSwift/Triggers/MBAutomationMessagesManager.swift:348-366 | a missing file, or one that is not a list of dictionaries, holds no messages; otherwise one message per dictionary |
| MessageStore.MessageRecords | MBAutomationSwift/Triggers/MBAutomationMessagesManager.swift:338 | one record per message, in order |
| MessageStore.WriteMessages | MBAutomationSwift/Triggers/MBAutomationMessagesManager.swift:338-345 | a serialisable list replaces the file; otherwise the file stays as it was |
| MessageStore.ReloadedAll | MBAutomationSwift/Triggers/MBAutomationMessagesManager.swift:348-366 | a reloaded list has each message reloaded, in order |
| MessageStore.WriteThenRead | MBAutomationSwift/Triggers/MBAutomationMessagesManager.swift:338-366 | a list written and read back is the reloaded list, in the same order |
| MessageStore.SavedStorable | MBAutomationSwift/Triggers/MBAutomationMessagesManager.swift:348-366 | every message read from the file can be stored again |
| MessageStore.FirstMessageWithId | MBAutomationSwift/Triggers/MBAutomationMessagesManager.swift:321 | the index of the first stored message with the id, or none when none has it |
| MessageStore.Refreshed | MBAutomationSwift/Triggers/MBAutomationMessagesManager.swift:321-330 | a stored message refreshed when both have parsed triggers takes the merged triggers, send-after days and repeat count of the refresh; otherwise it stays as stored; no other field changes |
| MessageStore.UpdateStored | MBAutomationSwift/Triggers/MBAutomationMessagesManager.swift:320-334 | updating stored messages in place keeps their number and ids |
| MessageStore.RefreshList | MBAutomationSwift/Triggers/MBAutomationMessagesManager.swift:320-334 | the list a refresh writes follows the refresh, id for id; a message not stored yet is written as received |
| MessageStore.UpdateStoredOnce | MBAutomationSwift/Triggers/MBAutomationMessagesManager.swift:320-334 | with distinct refreshed ids, a stored message is updated once, from the refreshed message with its id, or not at all |
| MessageStore.RefreshMerges | MBAutomationSwift/Triggers/MBAutomationMessagesManager.swift:320-334 | with distinct ids, a message already stored is written as its refreshed stored version and a new one as received |
| MessageStore.SharedStoredMessage | MBAutomationSwift/Triggers/MBAutomationMessagesManager.swift:320-334 | two refreshed messages with the id of one stored message are both written as that stored object's final state |
| MessageStore.SaveMessages | MBAutomationSwift/Triggers/MBAutomationMessagesManager.swift:313-346 | a refresh writes the merge with the stored messages; any other save writes the list as given |
| MessageStore.VerbatimSave | MBAutomationSwift/Triggers/MBAutomationMessagesManager.swift:335-337 | a save that is not a refresh reads back as the reloaded list as given |
| MessageStore.SaveSnapshot | MBAutomationSwift/Triggers/MBAutomationMessagesManager.swift:274-289 | a serialisable trigger record becomes the message's snapshot; other messages' snapshots are untouched |
| MessageStore.CheckOne | MBAutomationSwift/Triggers/MBAutomationMessagesManager.swift:232-251 | a message is shown only with parsed, valid triggers; without repeats its snapshot is not touched and it is shown iff valid; other messages' snapshots are untouched |
| MessageStore.RepeatSkippedUntilChanged | MBAutomationSwift/Triggers/MBAutomationMessagesManager.swift:236-248 | once a check stored a repeating message's snapshot, a second check with the same triggers skips it, unless it has an app-opening trigger and the check runs at startup |
| MessageStore.RepeatCheckedWhenChanged | MBAutomationSwift/Triggers/MBAutomationMessagesManager.swift:236-251 | a repeating message whose triggers differ from its snapshot gets a new snapshot and is shown iff valid |
| MessageStore.CheckAll | MBAutomationSwift/Triggers/MBAutomationMessagesManager.swift:231-252 | only stored messages with parsed, valid triggers are shown; every valid one that does not repeat is shown |
| MessageStore.Filter | MBAutomationSwift/Triggers/MBAutomationMessagesManager.swift:256 | a filtered list holds exactly the messages that pass the test |
| MessageStore.SplitDisjoint | MBAutomationSwift/Triggers/MBAutomationMessagesManager.swift:256-266 | no message goes both to the in-app list and to the push list |
| MessageStore.CheckMessages | MBAutomationSwift/Triggers/MBAutomationMessagesManager.swift:226-272 | the stored messages whose triggers are valid are shown. When the application is not in the background (active or inactive) and the messages plugin is registered, every valid in-app message that does not repeat is presented in one new list. Every presented message is a stored in-app message with parsed, valid triggers, and nothing is presented otherwise. The push state is `showPushNotifications` of the valid push messages, when there are any. The snapshots are those the per-message checks leave. Only snapshots, pushes and presented lists change, and nothing changes without stored messages |
| MessageStore.CheckKeepsPushConsistent | MBAutomationSwift/Triggers/MBAutomationMessagesManager.swift:264-270 | the check keeps the shown list free of duplicates and the pending identifiers unique |
| MessagesManager.ParseTriggers | MBAutomationSwift/Triggers/MBAutomationMessagesManager.swift:20-30 | only the triggers field changes, and raw triggers stay raw iff automation is off |
| MessagesManager.SetTriggers | MBAutomationSwift/Triggers/MBAutomationMessagesManager.swift:19-31 | non-messages are untouched and each message has its raw triggers parsed when automation is on |
| MessagesManager.SetTriggersOnce | MBAutomationSwift/Triggers/MBAutomationMessagesManager.swift:19-31 | a second pass changes nothing, and no message with automation on keeps raw triggers |
| MessagesManager.StepTriggers | MBAutomationSwift/Triggers/MBAutomationMessagesManager.swift:107-112 | each trigger is stepped in place, and a change is reported iff some step reports one |
| MessagesManager.StepMessage | MBAutomationSwift/Triggers/MBAutomationMessagesManager.swift:105-113 | only a message's triggers change, keeping method and length; a message without parsed triggers is untouched |
| MessagesManager.StepMessages | MBAutomationSwift/Triggers/MBAutomationMessagesManager.swift:104-114 | every stored message is stepped in place, and a change is reported iff some trigger of some message reports one |
| MessagesManager.StepKeepsStorable | MBAutomationSwift/Triggers/MBAutomationMessagesManager.swift:104-117 | a step that maps factory-built triggers to factory-built triggers keeps the messages storable |
| MessagesManager.Collect | MBAutomationSwift/Triggers/MBAutomationMessagesManager.swift:389-412 | the requests a handler collects are exactly those some trigger of some message produces |
| MessagesManager.EventStepKeepsWellFormed | MBAutomationSwift/Triggers/MBAutomationMessagesManager.swift:107-108 | the event step keeps every trigger one a factory builds |
| MessagesManager.HandleEvent | MBAutomationSwift/Triggers/MBAutomationMessagesManager.swift:98-101 | an event changes nothing when no messages are stored |
| MessagesManager.EventSavedOnChange | MBAutomationSwift/Triggers/MBAutomationMessagesManager.swift:98-120 | the messages file is rewritten only when some event trigger counted the event, and then reads back as the stepped messages |
| MessagesManager.TagCancelsExactly | MBAutomationSwift/Triggers/MBAutomationMessagesManager.swift:138-152 | a tag change cancels the push of exactly the stored push messages with send-after days that have a tag-change trigger reported invalid |
| MessagesManager.CancelEach | MBAutomationSwift/Triggers/MBAutomationMessagesManager.swift:147-151 | cancelling drops the pending request of every cancelled message and adds none |
| MessagesManager.HandleTag | MBAutomationSwift/Triggers/MBAutomationMessagesManager.swift:130-134 | a tag change does nothing when no messages are stored |
| MessagesManager.TagSavedOnlyOnChange | MBAutomationSwift/Triggers/MBAutomationMessagesManager.swift:142-157 | when every status is unchanged the messages file is not rewritten |
| MessagesManager.LastLocation | MBAutomationSwift/Triggers/MBAutomationMessagesManager.swift:194-203 | a last location is reported only when neither stored coordinate is 0 |
| MessagesManager.SaveLocationAsLast | MBAutomationSwift/Triggers/MBAutomationMessagesManager.swift:205-210 | saving the location changes only the stored coordinates |
| MessagesManager.LastLocationRoundTrip | MBAutomationSwift/Triggers/MBAutomationMessagesManager.swift:194-210 | a saved location reads back unless one of its coordinates is 0, in which case there is none |
| MessagesManager.LocationDelays | MBAutomationSwift/Triggers/MBAutomationMessagesManager.swift:181-183 | no delayed check is scheduled for 0 days |
| MessagesManager.HandleLocation | MBAutomationSwift/Triggers/MBAutomationMessagesManager.swift:163-192 | with no stored messages nothing changes; otherwise the location becomes the last one and delayed checks are only appended, none for 0 days |
| MessagesManager.LocationRemembered | MBAutomationSwift/Triggers/MBAutomationMessagesManager.swift:163-210 | after an update the last location is the new point, unless no messages are stored or a coordinate is 0 |
| MessagesManager.StartCheckTimer | MBAutomationSwift/Triggers/MBAutomationMessagesManager.swift:79-83 | starting adds one repeating check every `time` seconds; every timer already scheduled stays scheduled, because the one `timer` referred to is never invalidated; nothing else changes |
| MessagesManager.ChangeCheckTimer | MBAutomationSwift/Triggers/MBAutomationMessagesManager.swift:86-94 | changing the interval invalidates the timer `timer` refers to, if any, and schedules one every `time` seconds in its place; timers leaked by earlier starts keep running; nothing else changes |
| MessagesManager.CheckTimerReplaced | MBAutomationSwift/Triggers/MBAutomationMessagesManager.swift:86-94 | two interval changes in a row leave only the second interval in place of the referenced timer |
| MessagesManager.ChangeAfterStart | MBAutomationSwift/Triggers/MBAutomationMessagesManager.swift:79-94 | a change right after a start replaces exactly the timer that start scheduled |
| MessagesManager.StartKeepsRunningTimer | MBAutomationSwift/Triggers/MBAutomationMessagesManager.swift:79-83 | two starts leave both intervals scheduled, the earlier one before the later one |
| MessagesManager.ViewStepKeepsWellFormed | MBAutomationSwift/Triggers/MBAutomationMessagesManager.swift:396-397 | the view step keeps every trigger one a factory builds |
| MessagesManager.ViewCompletionNames | MBAutomationSwift/Triggers/MBAutomationMessagesManager.swift:397-409 | a completion requested for a trigger names its message and index, and that trigger is a view trigger for the screen whose count reached `times`, waiting `secondsOnView` |
| MessagesManager.ViewCompletionsTargetViews | MBAutomationSwift/Triggers/MBAutomationMessagesManager.swift:393-412 | every completion a screen view requests names a view trigger of a stored message |
| MessagesManager.CompletionTarget | MBAutomationSwift/Triggers/MBAutomationMessagesManager.swift:420-438 | a completion applies to the first message with its id when that message has parsed triggers and a view trigger at the index; otherwise it applies to nothing |
| MessagesManager.CompletedAt | MBAutomationSwift/Triggers/MBAutomationMessagesManager.swift:436-439 | only the view trigger at the index changes, and it becomes valid at now |
| MessagesManager.CompletedList | MBAutomationSwift/Triggers/MBAutomationMessagesManager.swift:427-439 | only the target message changes, and only in its completed trigger |
| MessagesManager.CompletedListStorable | MBAutomationSwift/Triggers/MBAutomationMessagesManager.swift:420-440 | completing a view trigger keeps the messages storable |
| MessagesManager.SetViewTriggerCompleted | MBAutomationSwift/Triggers/MBAutomationMessagesManager.swift:420-441 | a completion that finds no target changes nothing, and none touches the pending requests |
| MessagesManager.CompletionSaved | MBAutomationSwift/Triggers/MBAutomationMessagesManager.swift:420-441 | a completion that finds its trigger saves the messages with that trigger completed |
| MessagesManager.RunCompletions | MBAutomationSwift/Triggers/MBAutomationMessagesManager.swift:404-408 | exactly the completions with a non-zero delay are added to the pending requests |
| MessagesManager.CancelPreviousRequests | MBAutomationSwift/Triggers/MBAutomationMessagesManager.swift:386 | cancelling removes exactly the pending requests whose argument equals the given one |
| MessagesManager.NilCancelKeepsCompletions | MBAutomationSwift/Triggers/MBAutomationMessagesManager.swift:386 | as written, the nil-argument cancel keeps every pending completion, since each one carries its data |
| MessagesManager.ViewAfterCancel | MBAutomationSwift/Triggers/MBAutomationMessagesManager.swift:387-417 | after the cancellation, the pending requests are those left plus exactly this view's delayed completions, added after them |
| MessagesManager.HandleScreenViewAsWritten | MBAutomationSwift/Triggers/MBAutomationMessagesManager.swift:385-418 | as written, a screen view keeps every earlier pending request that carries data, ahead of this view's delayed completions |
| MessagesManager.ScreenViewKeepsEarlierCompletions | MBAutomationSwift/Triggers/MBAutomationMessagesManager.swift:386-406 | as written, every deferred completion requested before a screen view is still pending after it, in its place |
| MessagesManager.HandleScreenView | MBAutomationSwift/Triggers/MBAutomationMessagesManager.swift:385-418 | the corrected screen view, cancelling every earlier completion: afterwards the pending completions are exactly this view's delayed ones |
| MessagesManager.RunCompletionsIgnoresPending | MBAutomationSwift/Triggers/MBAutomationMessagesManager.swift:404-408 | what running the completions does to files, checks and pushes does not depend on the requests already pending |
| MessagesManager.ScreenViewCancelDiffers | MBAutomationSwift/Triggers/MBAutomationMessagesManager.swift:385-418 | the screen view as written and as corrected agree on everything but the pending list, where the code as written also keeps the earlier requests that carry data |
| MessagesManager.ImmediateCompletionOverwritten | MBAutomationSwift/Triggers/MBAutomationMessagesManager.swift:405-416 | when a view counts, the final save writes the counted messages, overwriting immediate completions |
| MessagesManager.FirePending | MBAutomationSwift/Triggers/MBAutomationMessagesManager.swift:420-441 | a fired request leaves the pending list |
| PushNotifications.NotificationIdentifier | MBAutomationSwift/Triggers/MBAutomationPushNotificationsManager.swift:109-111 | the identifier is the fixed prefix followed by a non-empty id |
| PushNotifications.IdentifierInjective | MBAutomationSwift/Triggers/MBAutomationPushNotificationsManager.swift:109-111 | equal identifiers come from equal message ids |
| PushNotifications.SetShown | MBAutomationSwift/Triggers/MBAutomationPushNotificationsManager.swift:124-134 | a message without a push changes nothing; otherwise its push id is appended unless already listed |
| PushNotifications.SetShownProperties | MBAutomationSwift/Triggers/MBAutomationPushNotificationsManager.swift:115-134 | after marking, a message counts as shown iff it has a push; marking twice is marking once; the list stays free of duplicates and loses nothing |
| PushNotifications.IndexOf | MBAutomationSwift/Triggers/MBAutomationPushNotificationsManager.swift:142 | the first position of an id, present iff the id is listed |
| PushNotifications.UnsetShown | MBAutomationSwift/Triggers/MBAutomationPushNotificationsManager.swift:136-146 | one occurrence of the push id is removed when listed; otherwise nothing changes |
| PushNotifications.UnsetShownClears | MBAutomationSwift/Triggers/MBAutomationPushNotificationsManager.swift:136-146 | without duplicates, unsetting leaves the message not shown, keeps every other id and keeps the list free of duplicates |
| PushNotifications.UnsetAfterSet | MBAutomationSwift/Triggers/MBAutomationPushNotificationsManager.swift:124-146 | unsetting undoes marking a message that had not been shown |
| PushNotifications.ContentOf | MBAutomationSwift/Triggers/MBAutomationPushNotificationsManager.swift:44-56 | the content carries the payload's title, body, image and user info; the badge defaults to 1; the sound is named iff the payload names one |
| PushNotifications.MediaUrl | MBAutomationSwift/Triggers/MBAutomationPushNotificationsManager.swift:57-60 | a media download is needed exactly when `media_url` is a string that is a URL |
| PushNotifications.ShowPush | MBAutomationSwift/Triggers/MBAutomationPushNotificationsManager.swift:32-76 | `sendPush` is reached iff the message has a push, notifications are authorised, and a needed media download delivers; the content is the payload's |
| PushNotifications.PushDelay | MBAutomationSwift/Triggers/MBAutomationPushNotificationsManager.swift:88-94 | immediate iff send-after days are 0, otherwise that many days in seconds |
| PushNotifications.SendPush | MBAutomationSwift/Triggers/MBAutomationPushNotificationsManager.swift:78-107 | nothing happens when a request with the identifier is pending. Otherwise the message is marked shown even if the centre refuses, and an accepted request is appended |
| PushNotifications.SendPushConsistent | MBAutomationSwift/Triggers/MBAutomationPushNotificationsManager.swift:78-107 | sending keeps the shown list duplicate-free and the pending identifiers unique |
| PushNotifications.ShowOne | MBAutomationSwift/Triggers/MBAutomationPushNotificationsManager.swift:32-76 | a message whose content is never built changes nothing |
| PushNotifications.ShowAllConsistent | MBAutomationSwift/Triggers/MBAutomationPushNotificationsManager.swift:19-21 | handling any list of messages keeps the push state consistent |
| PushNotifications.ShowOneRecords | MBAutomationSwift/Triggers/MBAutomationPushNotificationsManager.swift:78-107 | a message that reaches `sendPush` ends up pending or shown |
| PushNotifications.Unshown | MBAutomationSwift/Triggers/MBAutomationPushNotificationsManager.swift:15 | the unshown messages are empty iff every message has been shown |
| PushNotifications.MessagesToShow | MBAutomationSwift/Triggers/MBAutomationPushNotificationsManager.swift:14-22 | nothing is handed on when all messages were shown; otherwise the whole input is |
| PushNotifications.ShownMessagesResent | MBAutomationSwift/Triggers/MBAutomationPushNotificationsManager.swift:14-22 | once one message is new, every message, shown or not, is handed on |
| PushNotifications.ShowPushNotifications | MBAutomationSwift/Triggers/MBAutomationPushNotificationsManager.swift:14-22 | when every message was shown the push state is unchanged |
| PushNotifications.RemovePending | MBAutomationSwift/Triggers/MBAutomationPushNotificationsManager.swift:28 | exactly the pending requests with other identifiers remain |
| PushNotifications.CancelPushNotification | MBAutomationSwift/Triggers/MBAutomationPushNotificationsManager.swift:25-30 | the message's request is no longer pending, other requests stay, and its shown mark is removed |
| PushNotifications.CancelAllowsResend | MBAutomationSwift/Triggers/MBAutomationPushNotificationsManager.swift:25-107 | after a cancellation the message is not shown and a new send schedules its request again |
| TrackingModels.NewView | MBAutomationSwift/Tracking/Model/MBAutomationView.swift:17-23 | a new view has no id and is stamped now |
| TrackingModels.LoadedView | MBAutomationSwift/Tracking/Model/MBAutomationView.swift:25-33 | a loaded view carries the given id and the date of the given seconds |
| TrackingModels.NewEvent | MBAutomation/Tracking/Model/MBAutomationEvent.swift:18-26 | a new event has no id and is stamped now |
| TrackingModels.LoadedEvent | MBAutomation/Tracking/Model/MBAutomationEvent.swift:28-38 | a loaded event carries the given id and the date of the given seconds |
| TrackingModels.ViewApiDictionary | MBAutomationSwift/Tracking/Model/MBAutomationView.swift:35-45 | the API dictionary holds the view and the whole-second timestamp, and `metadata` as JSON text iff metadata is present and serialisable; no other key |
| TrackingModels.EventApiDictionary | MBAutomation/Tracking/Model/MBAutomationEvent.swift:40-54 | the API dictionary holds the event and the whole-second timestamp, `name` iff there is one, and `metadata` iff present and serialisable; no other key |
| TrackingModels.ApiTimestampTruncates | MBAutomationSwift/Tracking/Model/MBAutomationView.swift:37 | the API timestamp is the time in seconds truncated toward zero |
| TrackingDb.InsertBy | MBAutomation/Tracking/DB/MBAutomationDatabase.swift:111 | insertion adds exactly the one row |
| TrackingDb.InsertBySorted | MBAutomation/Tracking/DB/MBAutomationDatabase.swift:111 | inserting into sorted rows keeps them sorted |
| TrackingDb.SortBy | MBAutomation/Tracking/DB/MBAutomationDatabase.swift:111 | `ORDER BY timestamp ASC` is a permutation of the rows in ascending order |
| TrackingDb.WithoutIds | MBAutomation/Tracking/DB/MBAutomationDatabase.swift:194 | `DELETE ... WHERE id IN` keeps exactly the rows whose id is not listed, and everything when no row is listed |
| TrackingDb.WithoutIdsBelow | MBAutomation/Tracking/DB/MBAutomationDatabase.swift:194 | deleting rows keeps the remaining ids increasing and below the next id |
| TrackingDb.WithoutEarlierRows | MBAutomation/Tracking/DB/MBAutomationDatabase.swift:194 | deleting the ids of an earlier prefix of the table removes exactly that prefix |
| TrackingDb.LoadAll | MBAutomation/Tracking/DB/MBAutomationDatabase.swift:114-128 | one loaded record per row, in row order |
| TrackingDb.ColumnInt | MBAutomation/Tracking/DB/MBAutomationDatabase.swift:115 | `sqlite3_column_int` gives a signed 32-bit value, the stored id when it fits |
| TrackingDb.MetadataColumn | MBAutomation/Tracking/DB/MBAutomationDatabase.swift:89-99 | the metadata column is non-NULL iff there is metadata and it serialises |
| TrackingDb.ReadMetadata | MBAutomation/Tracking/DB/MBAutomationDatabase.swift:267-278 | metadata is read iff the column holds a JSON object |
| TrackingDb.MetadataRoundTrip | MBAutomation/Tracking/DB/MBAutomationDatabase.swift:48-120 | stored metadata reads back when it was serialisable and as nil otherwise |
| TrackingDb.SetupTables | MBAutomation/Tracking/DB/MBAutomationDatabase.swift:18-38 | opening makes both tables exist, rows are untouched, and a failed open changes nothing |
| TrackingDb.SaveView | MBAutomation/Tracking/DB/MBAutomationDatabase.swift:42-63 | with the file open and the table present, the view is appended with the next id; otherwise nothing changes; the event table is untouched and ids stay increasing |
| TrackingDb.SaveEvent | MBAutomation/Tracking/DB/MBAutomationDatabase.swift:65-87 | with the file open and the table present, the event is appended with the next id; otherwise nothing changes; the view table is untouched and ids stay increasing |
| TrackingDb.LoadView | MBAutomation/Tracking/DB/MBAutomationDatabase.swift:114-126 | a row reads back with its column-int id, its name, its metadata and the date of its timestamp; a NULL name, which saved rows never have and on which the code traps, reads as "" |
| TrackingDb.LoadEvent | MBAutomation/Tracking/DB/MBAutomationDatabase.swift:149-166 | a row reads back with its event, a NULL name as nil, its metadata and timestamp; a NULL event, which saved rows never have and on which the code traps, reads as "" |
| TrackingDb.ListViews | MBAutomation/Tracking/DB/MBAutomationDatabase.swift:103-136 | the completion is never called when the file cannot be opened; otherwise it gets every row oldest first, or none without the table |
| TrackingDb.ListEvents | MBAutomation/Tracking/DB/MBAutomationDatabase.swift:138-176 | the completion is never called when the file cannot be opened; otherwise it gets every row oldest first, or none without the table |
| TrackingDb.ViewsOrNil | MBAutomation/Tracking/DB/MBAutomationDatabase.swift:103-107 | the listing the manager expects: nil iff the file cannot be opened, otherwise the same rows |
| TrackingDb.EventsOrNil | MBAutomation/Tracking/DB/MBAutomationDatabase.swift:138-142 | the listing the manager expects: nil iff the file cannot be opened, otherwise the same rows |
| TrackingDb.ViewIdsOf | MBAutomation/Tracking/DB/MBAutomationDatabase.swift:193 | the ids a delete names are exactly the views' ids, nil read as 0 |
| TrackingDb.EventIdsOf | MBAutomation/Tracking/DB/MBAutomationDatabase.swift:225 | the ids a delete names are exactly the events' ids, nil read as 0 |
| TrackingDb.DeleteViews | MBAutomation/Tracking/DB/MBAutomationDatabase.swift:180-209 | an empty list completes at once without touching the table; otherwise the completion runs iff the file opens, and the rows left are exactly those whose id is not named |
| TrackingDb.DeleteEvents | MBAutomation/Tracking/DB/MBAutomationDatabase.swift:211-240 | an empty list completes at once without touching the table; otherwise the completion runs iff the file opens, and the rows left are exactly those whose id is not named |
| TrackingDb.LoadSortedRows | MBAutomation/Tracking/DB/MBAutomationDatabase.swift:111-128 | a listing has one record per row: none lost, none invented |
| TrackingDb.LoadedTimesSorted | MBAutomation/Tracking/DB/MBAutomationDatabase.swift:121-126 | loaded timestamps keep the order of the stored ones |
| TrackingDb.ListedViewsAreTheTable | MBAutomation/Tracking/DB/MBAutomationDatabase.swift:103-136 | the view listing has the table's size, one record per row, oldest first |
| TrackingDb.ListedEventsAreTheTable | MBAutomation/Tracking/DB/MBAutomationDatabase.swift:138-176 | the event listing has the table's size, one record per row, oldest first |
| TrackingDb.SavedViewListed | MBAutomation/Tracking/DB/MBAutomationDatabase.swift:42-136 | a saved view is listed with the id the table gave it, its name, timestamp and serialisable metadata |
| TrackingDb.SavedEventListed | MBAutomation/Tracking/DB/MBAutomationDatabase.swift:65-176 | a saved event is listed with its id, event, name (nil included), timestamp and serialisable metadata |
| TrackingDb.ListedViewIds | MBAutomation/Tracking/DB/MBAutomationDatabase.swift:115-194 | while ids fit a column int, the ids a listing names are exactly the table's ids |
| TrackingDb.ListedEventIds | MBAutomation/Tracking/DB/MBAutomationDatabase.swift:150-226 | while ids fit a column int, the ids a listing names are exactly the table's ids |
| TrackingDb.DeleteListedViews | MBAutomation/Tracking/DB/MBAutomationDatabase.swift:180-209 | deleting a listing removes exactly the listed rows: views inserted after the listing survive |
| TrackingDb.DeleteListedEvents | MBAutomation/Tracking/DB/MBAutomationDatabase.swift:211-240 | deleting a listing removes exactly the listed rows: events inserted after the listing survive |
| TrackingDb.UnsavedViewsDeleteNothing | MBAutomation/Tracking/DB/MBAutomationDatabase.swift:193 | records without an id name row 0, which no table holds, so deleting them changes nothing |
| TrackingDb.UnsavedEventsDeleteNothing | MBAutomation/Tracking/DB/MBAutomationDatabase.swift:225 | records without an id name row 0, which no table holds, so deleting them changes nothing |
| TrackingManager.Initial | MBAutomationSwift/Tracking/MBAutomationTrackingManager.swift:15-26 | the manager starts idle with the flag clear and a 10 s interval |
| TrackingManager.StartTimer | MBAutomationSwift/Tracking/MBAutomationTrackingManager.swift:59-65 | any timer is replaced by one with the current interval; nothing else changes |
| TrackingManager.StopTimer | MBAutomationSwift/Tracking/MBAutomationTrackingManager.swift:67-72 | no timer remains; nothing else changes |
| TrackingManager.SetTimerTime | MBAutomationSwift/Tracking/MBAutomationTrackingManager.swift:15-22 | the interval changes and the timer is restarted with it only if one was running |
| TrackingManager.TrackView | MBAutomationSwift/Tracking/MBAutomationTrackingManager.swift:28-57 | a view is saved only when the automation plugin is registered with tracking on; otherwise nothing changes |
| TrackingManager.TrackEvent | MBAutomationSwift/Tracking/MBAutomationTrackingManager.swift:32-57 | an event is saved only when the automation plugin is registered with tracking on; otherwise nothing changes |
| TrackingManager.CheckQueue | MBAutomationSwift/Tracking/MBAutomationTrackingManager.swift:74-80 | a tick while a flush is in flight changes nothing; otherwise the flag is set and the views are listed first |
| TrackingManager.RunDb | MBAutomationSwift/Tracking/MBAutomationTrackingManager.swift:91-161 | the corrected database hop, with the listing answering nil on a failed open: every hop moves the flush forward or ends it with the flag cleared; listing and a failed open leave the tables alone. The code as written is TrackingManager.RunDbAsWritten |
| TrackingManager.RunDbAsWritten | MBAutomation/Tracking/DB/MBAutomationDatabase.swift:103-107 | as written, a file that cannot be opened leaves the flush stalled with the flag and tables unchanged |
| TrackingManager.Respond | MBAutomationSwift/Tracking/MBAutomationTrackingManager.swift:113-123 | success moves a batch on to deletion; failure of views moves on to the events and failure of events ends the flush; tables are untouched |
| TrackingManager.FlushKeepsCoherent | MBAutomationSwift/Tracking/MBAutomationTrackingManager.swift:74-161 | every hop keeps the in-flight flag set exactly while a flush is under way |
| TrackingManager.FlagClearedByEventsStep | MBAutomationSwift/Tracking/MBAutomationTrackingManager.swift:80-88 | the flag is cleared only by a hop of the events step |
| TrackingManager.ViewsDeletedOnlyAfterSuccess | MBAutomationSwift/Tracking/MBAutomationTrackingManager.swift:113-123 | a views batch goes to deletion iff the server accepted it |
| TrackingManager.EmptyViewsSkipRequest | MBAutomationSwift/Tracking/MBAutomationTrackingManager.swift:99-104 | an empty views table skips the request and moves on to the events |
| TrackingManager.SuccessfulFlushKeepsNewViews | MBAutomationSwift/Tracking/MBAutomationTrackingManager.swift:92-118 | a successful flush deletes exactly the uploaded views: a view tracked while the request was in flight stays queued |
| TrackingManager.SuccessfulFlushKeepsNewEvents | MBAutomationSwift/Tracking/MBAutomationTrackingManager.swift:128-154 | a successful flush deletes exactly the uploaded events: an event tracked while the request was in flight stays queued |
| TrackingManager.FailedFlushKeepsQueue | MBAutomationSwift/Tracking/MBAutomationTrackingManager.swift:119-123 | a failed request deletes nothing, and a failed views request moves on to the events |
| TrackingManager.OpenFailureStallsFlush | MBAutomation/Tracking/DB/MBAutomationDatabase.swift:103-107 | as written, an unopenable file leaves the flag set for ever and every later tick is skipped |
| TrackingManager.FlushAlwaysProgresses | MBAutomationSwift/Tracking/MBAutomationTrackingManager.swift:93-98 | when the listing answers nil, no hop stalls: each moves forward or ends the flush with the flag cleared |
| AudienceTags.TagFromDictionary | Pods/MBAudienceSwift/MBAudienceSwift/MBAudienceTag.swift:20-24 | a missing tag or value reads as "" |
| AudienceTags.TagToDictionary | Pods/MBAudienceSwift/MBAudienceSwift/MBAudienceTag.swift:26-28 | the dictionary has exactly the keys tag and value |
| AudienceTags.WithValue | Pods/MBAudienceSwift/MBAudienceSwift/MBAudienceTag.swift:12-13 | assigning a value keeps the tag key |
| AudienceTags.TagDictionaryRoundTrip | Pods/MBAudienceSwift/MBAudienceSwift/MBAudienceTag.swift:20-28 | a tag read back from its dictionary is unchanged |
| Audience.FirstIndexOf | Pods/MBAudienceSwift/MBAudienceSwift/MBAudienceManager.swift:232 | the first position with the key, or none when no tag has it |
| Audience.SetTag | Pods/MBAudienceSwift/MBAudienceSwift/MBAudienceManager.swift:230-249 | a new key is appended and notified. An existing key with another value is replaced in place and notified. An existing key with the same value saves nothing and sends no notification |
| Audience.RemoveTag | Pods/MBAudienceSwift/MBAudienceSwift/MBAudienceManager.swift:251-259 | the first tag with the key is removed if any, the list is saved either way, and a nil value is always notified |
| Audience.TagsRoundTrip | Pods/MBAudienceSwift/MBAudienceSwift/MBAudienceManager.swift:261-273 | saved tags read back unchanged |
| Audience.SetTagThenGet | Pods/MBAudienceSwift/MBAudienceSwift/MBAudienceManager.swift:230-273 | after setting a key, its first entry holds the new value |
| Audience.SessionDateKeyInjective | Pods/MBAudienceSwift/MBAudienceSwift/MBAudienceManager.swift:90-93 | two sessions share a date key iff they are the same session |
| Audience.IncrementSession | Pods/MBAudienceSwift/MBAudienceSwift/MBAudienceManager.swift:58-68 | the session counter goes up by one |
| Audience.IncrementSessionDates | Pods/MBAudienceSwift/MBAudienceSwift/MBAudienceManager.swift:58-82 | the new session starts now, the previous session keeps its date, sessions two to four back (when not negative) lose theirs, and every other session is unaffected |
| Automation.Init | MBAutomationSwift/MBAutomation.swift:31-43 | init creates the tables and adds one 30 s message check to those already running. It hands the interval to the tracking manager, restarting its timer only if one runs. The plugin's own `eventsTimerTime` keeps its default of 10 |
| Automation.ReinitLeaksCheckTimer | MBAutomationSwift/MBAutomation.swift:40 | a second plugin created after the first leaves two 30 s message checks running |
| Automation.SetEventsTimerTime | MBAutomationSwift/MBAutomation.swift:20-24 | setting the interval forwards it to the tracking manager and keeps its timer current |
| Automation.Gate | MBAutomationSwift/Tracking/MBAutomationTrackingManager.swift:52-57 | tracking is enabled iff the plugin is registered and its flag is on |
| Automation.SendEvent | MBAutomationSwift/MBAutomation.swift:55-63 | one event stamped now goes to the triggers and to the telemetry queue |
| Automation.SentEventQueued | MBAutomationSwift/MBAutomation.swift:55-63 | a sent event is appended to the queue with the next id exactly when tracking is on and the table takes it; otherwise the queue is unchanged |
| Automation.Startup | MBAutomationSwift/MBAutomation.swift:71-78 | the startup block starts the flush timer with the current interval and calls its completion |
| Automation.MessagesOf | MBAutomationSwift/MBAutomation.swift:87 | the cast to messages keeps every element, in order |
| Automation.Automated | MBAutomationSwift/MBAutomation.swift:91 | exactly the parsed messages with automation on are kept |
| Automation.MessagesReceived | MBAutomationSwift/MBAutomation.swift:84-95 | triggers are parsed in the caller's list. A list with a non-message changes nothing else. Otherwise the automated messages are saved as a refresh and checked with the same `fromStartup` |
| Automation.ReceivedAutomatedOnly | MBAutomationSwift/MBAutomation.swift:84-95 | the saved list follows the automated messages id by id, and each has automation on and no raw triggers |
| Automation.TagChanged | MBAutomationSwift/MBAutomation.swift:101-103 | a tag change goes to the messages manager only: telemetry is untouched, and nothing changes when no messages are stored |
| Automation.LocationDataUpdated | MBAutomationSwift/MBAutomation.swift:109-111 | a location update goes to the messages manager only; with messages stored the point becomes the last location and delayed checks are only added, and with none nothing changes |
| Automation.DidBecomeActive | MBAutomationSwift/MBAutomation.swift:113-115 | becoming active checks the messages as a non-startup check; the file, timers, pending requests and telemetry are untouched, and a list is presented only when the application is not in the background and the messages plugin is present |

## Findings

| source | as written | input that shows it | evidently intended | confidence | as-written member | corrected member |
|---|---|---|---|---|---|---|
| MBAutomationSwift/Triggers/MBAutomationMessagesManager.swift:386 | `cancelPreviousPerformRequests` is called with object `nil`, but every deferred `setViewTriggerCompleted(data:)` carries a dictionary argument, so nothing is cancelled | view screen A, whose view trigger waits 5 s, then screen B within 5 s: A's completion still fires | a new screen view drops the pending completions of the previous screen | medium, not executed | MessagesManager.ScreenViewKeepsEarlierCompletions | MessagesManager.HandleScreenView |
| MBAutomation/Tracking/DB/MBAutomationDatabase.swift:105-107 | `views(completion:)` and `events(completion:)` return without calling the completion when the file cannot be opened (likewise the deletes at 189-191), while the manager's `guard let views = views else { completion() }` expects a nil answer | a flush that starts while the database file cannot be opened: `sendingData` stays true and every later `checkQueue` returns at once | the listing answers nil and the flush ends, clearing `sendingData` | medium, not executed | TrackingManager.OpenFailureStallsFlush | TrackingManager.FlushAlwaysProgresses |

## Left out

- User interface and operating-system calls are outputs or flags in the model, not calls:
  - presenting in-app messages (`MBInAppMessageManager.presentMessages`) is a list appended to `presented`;
  - `UIApplication` state and plugin lookup are `Env` flags;
  - `UNUserNotificationCenter` requests are a list of pending requests;
  - the centre's acceptance is a parameter;
  - authorisation is a flag.
- `downloadMedia`: the media download is a flag saying whether it delivers a file. The attachment it adds to the content is not modelled.
- View interception by swizzling, `trackScreenView` and the view-controller extensions are runtime glue. The model starts at `screenViewed(view:)` and `trackView(_:)`.
- Timers, run loops and delayed performs are state fields:
  - the intervals of the repeating check timers still scheduled;
  - the list of one-shot checks;
  - the list of pending completions;
  - the flush timer.

  Firing is an explicit operation.
- The flush is asynchronous in the code. Each database hop and each server answer is modelled as one atomic step; other interleavings are not.
- The network request is modelled only through its outcome, a success flag. The request body is not modelled.
- `sendEvent` updates the triggers before queueing the event. The two effects touch disjoint state, so the order cannot be observed in the model.
- Files, user defaults and SQLite are in-memory values; paths are always available and writes never fail in I/O.
- `JSONSerialization.data(withJSONObject:)` raises an Objective-C exception for a value it cannot encode (a `Date` in metadata, say), which `try?` does not catch, so the app crashes. The model has no crash: such a value is skipped as if `try?` had returned nil. The members below state that skip, which the program never reaches:
- MessageStore.WriteMessages: a list that cannot be serialised leaves the file unchanged; the code crashes at MBAutomationMessagesManager.swift:339.
- MessageStore.SaveSnapshot: a trigger record that cannot be serialised leaves the snapshots unchanged; the code crashes at MBAutomationMessagesManager.swift:282.
- TrackingDb.MetadataColumn: metadata that cannot be serialised is stored as NULL; the code crashes at MBAutomationDatabase.swift:94.
- TrackingDb.MetadataRoundTrip: "nil otherwise" is the crash of MBAutomationDatabase.swift:94; only serialisable metadata is a behaviour of the code.
- TrackingDb.SavedViewListed: a view whose metadata cannot be serialised is listed with nil metadata, where the code crashes on saving it.
- TrackingDb.SavedEventListed: an event whose metadata cannot be serialised is listed with nil metadata, where the code crashes on saving it.
- TrackingModels.ViewApiDictionary: metadata that cannot be serialised is left out of the dictionary; the code crashes at MBAutomationView.swift:39.
- TrackingModels.EventApiDictionary: metadata that cannot be serialised is left out of the dictionary; the code crashes at MBAutomationEvent.swift:48.
- TrackingDb.LoadView: `sqlite3_column_text` of a NULL `view` column is passed to `stringForCString`, whose parameter is not optional, so the code traps; the model reads it as "". Saved rows always bind a name, so the case only arises in a file written by something else.
- TrackingDb.LoadEvent: a NULL `event` column traps in the code the same way; the model reads it as "". Saved rows always bind an event.
- JSON text is kept as the value it encodes. `JSONSerialization` is a `Serialisable` predicate over values.
- `NSDictionary.isEqual` on snapshots is structural equality of values. Numeric bridging (1 vs 1.0) is not modelled.
- EventTriggers.EventHappened: event metadata is compared with structural equality, while `NSDictionary.isEqual` bridges numbers, so trigger metadata `{"n": 1}` matches an event's `{"n": 1.0}` in the code but not in the model.
- PushNotifications.PushDelay: a negative `sendAfterDays` gives a negative interval here, while `UNTimeIntervalNotificationTrigger` raises for an interval that is not positive, so the code crashes.
- `ORDER BY timestamp` leaves ties unspecified. The model keeps ties in insertion order.
- TrackingDb.ListedViewIds: stated only while ids fit the 32-bit `sqlite3_column_int`, because a larger id is truncated by that call and would name another row. The same holds for TrackingDb.ListedEventIds, TrackingDb.DeleteListedViews and TrackingDb.DeleteListedEvents.
- HexColor.ColorFromHex: a colour string whose scanned value needs more than 32 bits traps in the code, on the conversion to `UInt32`. Here it gives no colour.
- Messages.ColorAt: for the same reason, such a colour string reads as no colour instead of trapping.
- HexColor.HexString: colour components are 8-bit integers. The floating-point `getRed` and `Int(r*255)` conversion is not modelled.
- The raw values of `MessageType`, `MBInAppMessageStyle` and `MBInAppMessageButtonLinkType` are taken as declaration order. The enums' declarations are not part of this model.
- The four members no shown file defines are uninterpreted functions in `MessageStore.Hooks`, with no contract assumed:
  - `isValid(message:fromAppStartup:)`;
  - `updatedTrigger(newTrigger:)`;
  - the tag-change status;
  - `afterDays`.
- Region containment (`CLCircularRegion.contains`) is a hook function.
- `Calendar` arithmetic ignores daylight-saving shifts:
  - a day is 86 400 s (PushNotifications.PushDelay);
  - whole days are elapsed time divided by a day (Clock.WholeDaysBetween).
- Floating-point coordinates, radius and intervals are `real` numbers.
- MessagesManager.FirePending: states only that the request leaves the pending list. What it then does is `SetViewTriggerCompleted`, stated there.
- Session durations, `updateMetadata`, `updateLocation`, custom and mobile user ids, and location services of the audience plugin are not part of this model, because the triggers do not read them.
- The older `MBAutomation/` revision of the triggers, manager, plugin and view model is not modelled. Only its database and event record are, because no newer copy of them exists.
- `Package.swift` and the static `MBAudience` wrappers are not modelled.
