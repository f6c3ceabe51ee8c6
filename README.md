# huecontrol core, modelled in Dafny

huecontrol is a browser front end for a Philips Hue bridge. It mirrors the
bridge's lights, groups (rooms among them) and scenes as custom elements and
lets the user switch them, edit their membership, and create, save or delete
them. This project models the core of that front end and proves what its
operations promise:

- **The bridge connector** (`bridgeconnector.dfy`, module `Bridge`). This is
  the class `BridgeConnector`. It keeps one cache per host and user (the
  `Registry` of instances). The cache holds the id-keyed maps of lights,
  groups and scenes, the drafts that are not saved yet, and the set of
  grouped lights. It fills the cache from the bridge's answers, creates,
  updates and deletes groups and scenes, refreshes everything related to an
  element (`updateFor`), counts the lightstates the scenes use, and
  whitelists the fields of a state payload.
- **The network is an oracle.** Every request the connector would send is
  appended to a `log`. Each answer the bridge gives is a parameter of the
  method that awaits it. Dispatched events and error alerts are appended to
  `events`.
- **The light, group and scene elements** (`lightelement.dfy`,
  `lightgroupelement.dfy`, `lightsceneelement.dfy`). These are classes with
  a `data` setter, the `new`/`unsaved`/`changed`/`saved` mode machine, the
  staged membership edits (`addLight`, `removeLight`, then commit on save),
  and edit and cancel. The scene element also derives whether it is active
  (`on`) or merely lit (`any_on`) from its target lightstates.
- **The click handlers that call the bridge** (`clicks.dfy`): the light,
  group and room icons, and save and delete.
- **The light control element** (`lightcontrolelement.dfy`). This covers:
  - the colour slider's `mode` and `satColor`, including the parsing of
    `#hex`, `rgb(r, g, b)` and decimal text with 32-bit bitwise arithmetic;
  - the capability table keyed by the light type;
  - the four popups that edit a lightstate.
- **The configuration view** (`homelightingconfiguration.dfy`). This covers
  `clearDom`, the expand/collapse switch with the stored collapsed ids, the
  loop that prunes ids whose section does not exist, and the partition of
  lights, groups, rooms and scenes into their lists.
- **The sorters** (`sorter.dfy`).
- **JavaScript values** (`js.dfy`): truthiness, strict equality, property
  keys and absent properties.

In `updateFor`, the rooms loop reads a property that is never set, and the
scenes loop compares a light element with 0. So, as written, neither adds an
element. The model keeps that behaviour: only the target itself can be a
scene among the refreshed elements.

The group and scene `data` setters end by rendering their member lights,
and the rendering reads the name of each member. A member id the light
cache does not hold maps to undefined, so the rendering throws. The model
keeps the assignments the setter made before the throw and reports the
throw as a `completed` (or `ok`) result that is false. Every caller
carries it up: a fill, a creation or a refresh stops where the setter
threw, and the steps after it do not happen. In `_fillGroups` the group
setter throws before the room loop runs, so the room loop's own throw on
an uncached light is never reached. For the scene setter, `completed`
follows the intended flags loop (see "## Findings"), which also throws
where a target light is missing from the live states; the loop as written
never throws.

## Model

| member | source | states |
|---|---|---|
| Js.Get | js/modules/elements/lightsceneelement.js:17-21 | reading an absent property yields undefined; a present one yields its value |
| Js.PropKey | js/modules/elements/lightgroupelement.js:311-316 | an id used as a property key is the id itself, and a null id becomes the key "null" |
| Js.WithoutMeaning | js/modules/hue/bridgeconnector.js:214-216 | filtering out one element keeps exactly the other elements and never lengthens the list |
| Sorter.Compare | js/modules/utils/sorter.js:3-8 | the comparison is 0 exactly when the two values are strictly equal, and otherwise 1 or -1 |
| Sorter.StrLessIrreflexive | js/modules/utils/sorter.js:7 | no string is greater than itself |
| Sorter.StrLessTrichotomy | js/modules/utils/sorter.js:7 | of two different strings exactly one is the greater |
| Sorter.StrLessTransitive | js/modules/utils/sorter.js:7 | string order is transitive |
| Sorter.ByNameAscAntisymmetric | js/modules/utils/sorter.js:3-8 | for named items, swapping the arguments negates the result |
| Sorter.ByNameAscAgreesWithStrLess | js/modules/utils/sorter.js:3-8 | for named items, the sign is negative iff the first name is the smaller and positive iff it is the greater |
| Sorter.ByNameAscTransitive | js/modules/utils/sorter.js:3-8 | for named items, the order is transitive, so sorting by name is well defined |
| Sorter.ByRoomAscUndefinedBothFirst | js/modules/utils/sorter.js:11-16 | an item without a room and one with a room each compare as smaller than the other (-1 both ways) |
| LightEl.Toggled | js/modules/elements/lightelement.js:129-130 | toggling flips the truthiness of `state.on`, keeps every other state field and the other data, and leaves "on" defined |
| LightEl.LightElement.constructor | js/modules/elements/lightelement.js:115-172 | a new light has no id, empty data, mode saved, and no remembered name |
| LightEl.LightElement.SetData | js/modules/elements/lightelement.js:195-204 | the id is replaced only by a truthy `_id`; data, name and the on flag (truthiness of `state.on`) follow the value; room, mode and the remembered name are kept |
| LightEl.LightElement.ToggleStateOn | js/modules/elements/lightelement.js:129-130 | the data becomes its toggled version and nothing else changes |
| LightEl.LightElement.SaveClicked | js/modules/elements/lightelement.js:136-140 | the remembered name is dropped, the mode becomes saved and the name is no longer editable; the name itself is kept |
| LightEl.LightElement.EditClicked | js/modules/elements/lightelement.js:144-150 | the current name is remembered and the mode becomes changed |
| LightEl.LightElement.CancelClicked | js/modules/elements/lightelement.js:154-157 | the name reverts to the remembered one (empty text if none) and the mode becomes saved |
| LightEl.EditThenCancel | js/modules/elements/lightelement.js:144-157 | edit followed by cancel restores the name and leaves it not editable |
| LightEl.NewLightNotEditable | js/modules/elements/lightelement.js:242-248 | a newly built light's name is not editable |
| LightEl.MembersMeaning | js/modules/elements/lightgroupelement.js:246-248 | the member map has exactly the listed ids, each mapped to the cached light or to undefined |
| LightEl.MembersRender | js/modules/elements/lightgroupelement.js:470-474 | every member renders iff every listed id is cached |
| LightEl.Merged | js/modules/elements/lightgroupelement.js:376 | `Object.assign` of the added lights: the keys are the union, added entries win, and the others are kept |
| LightEl.EditedMode | js/modules/elements/lightgroupelement.js:318-322 | a membership edit makes the mode changed iff the id is truthy, else unsaved |
| GroupEl.WithOn | js/modules/elements/lightgroupelement.js:287-293 | writing `on` sets `state.all_on` and `action.on` and keeps the rest of the data |
| GroupEl.LightGroupElement.constructor | js/modules/elements/lightgroupelement.js:181-198 | a new group has no id, no data, no members, mode new, and is not a room |
| GroupEl.LightGroupElement.SetData | js/modules/elements/lightgroupelement.js:224-250 | null clears the id, data and members; otherwise the id is replaced only by a truthy `_id`, the name, the room flag (type "Room") and the members follow the value, and `on`/`any_on` read `all_on`/`any_on` of its state (false without a state); staged lights and mode are kept; the member rendering throws (`completed` false) iff a listed light is not cached |
| GroupEl.LightGroupElement.SetOn | js/modules/elements/lightgroupelement.js:287-293 | with a state and a different value, the data becomes `WithOn`; otherwise it is untouched; with a state, `on` then reads the value |
| GroupEl.LightGroupElement.ToggleOn | js/modules/elements/lightgroupelement.js:352-355 | `on` flips and the action's "on" field agrees with it |
| GroupEl.LightGroupElement.AddLight | js/modules/elements/lightgroupelement.js:311-324 | a light already a member or staged changes nothing; otherwise it is staged under its id key, the mode becomes the edited mode, and the re-render throws iff a member light is not cached |
| GroupEl.LightGroupElement.RemoveLight | js/modules/elements/lightgroupelement.js:326-340 | an unknown id changes nothing; otherwise it leaves both the members and the staged lights, the mode becomes the edited mode, and the re-render throws iff a remaining member is not cached |
| GroupEl.LightGroupElement.CommitAddedLights | js/modules/elements/lightgroupelement.js:372-377 | saving is refused iff there are no members and no staged lights; otherwise the staged lights are merged into the members and cleared |
| GroupEl.LightGroupElement.EditClicked | js/modules/elements/lightgroupelement.js:384-386 | the mode becomes changed, the name becomes editable, and nothing else changes |
| GroupEl.LightGroupElement.CancelClicked | js/modules/elements/lightgroupelement.js:390-395 | the name reverts to the data's name, staged lights are dropped and the members are kept; the re-render throws iff a member is not cached, and only when it does not is the mode saved (it is kept otherwise) |
| SceneEl.KeysMatchAll | js/modules/elements/lightsceneelement.js:17-21 | the key loop succeeds iff every visited key has strictly equal values |
| SceneEl.HasStateMeaning | js/modules/elements/lightsceneelement.js:12-24 | whatever order the keys are visited in, `hasState` holds iff the second state exists and reproduces every field of the first |
| SceneEl.HasStateOfEmpty | js/modules/elements/lightsceneelement.js:12-24 | an empty target is reproduced by every present state |
| SceneEl.ReproducesIgnoresExtraKeys | js/modules/elements/lightsceneelement.js:11-24 | fields the target does not mention do not affect reproduction |
| SceneEl.SceneFlags | js/modules/elements/lightsceneelement.js:271-290 | a scene is never both active and merely lit |
| SceneEl.ScanMeaning | js/modules/elements/lightsceneelement.js:278-286 | the loop ends with both flags false iff some targeted light is off; otherwise any-on holds, and all-on holds iff every light reproduces its target |
| SceneEl.SceneFlagsTable | js/modules/elements/lightsceneelement.js:271-290 | a light off gives neither flag; all on and matching gives `on`; all on with a mismatch gives `any_on` |
| SceneEl.AsWrittenAlwaysOn | js/modules/elements/lightsceneelement.js:267-290 | as written, every scene reports itself active and not merely lit |
| SceneEl.AsWrittenMisreportsLightOff | js/modules/elements/lightsceneelement.js:272-290 | a scene whose only light is off is reported active as written, and neither active nor lit as intended |
| SceneEl.LiveStates | js/modules/elements/lightsceneelement.js:279 | the live states are exactly those of member lights that are cached and have data |
| SceneEl.LightSceneElement.constructor | js/modules/elements/lightsceneelement.js:199-219 | a new scene has no id, data or members, mode new, and is neither on nor lit |
| SceneEl.LightSceneElement.SetData | js/modules/elements/lightsceneelement.js:245-293 | null clears the id, data and members; otherwise the id is replaced only by a truthy `_id`, the name and members follow, new target lightstates replace the held ones, and the flags follow `SceneFlags`; the setter completes iff the value is null, or the flags are defined and every listed light is cached |
| SceneEl.LightSceneElement.Describe | js/modules/elements/lightsceneelement.js:245-266 | the id, data, name, members and target lightstates follow the value |
| SceneEl.LightSceneElement.RefreshFlags | js/modules/elements/lightsceneelement.js:271-290 | the flags become `SceneFlags` of the held targets and live states, or stay as they were when the loop throws; `completed` says which |
| SceneEl.LightSceneElement.AddLight | js/modules/elements/lightsceneelement.js:364-377 | same staging rule as for groups, keyed by the scene id's truthiness; the re-render throws iff a member light is not cached |
| SceneEl.LightSceneElement.RemoveLight | js/modules/elements/lightsceneelement.js:379-393 | same removal rule as for groups; the re-render throws iff a remaining member is not cached |
| SceneEl.LightSceneElement.CommitAddedLights | js/modules/elements/lightsceneelement.js:418-422 | saving is refused iff there are no members and no staged lights; otherwise the staged lights are merged and cleared |
| SceneEl.LightSceneElement.EditClicked | js/modules/elements/lightsceneelement.js:430-432 | the mode becomes changed and the name becomes editable |
| SceneEl.LightSceneElement.CancelClicked | js/modules/elements/lightsceneelement.js:436-441 | the name reverts to the data's name and staged lights are dropped; the re-render throws iff a member is not cached, and only when it does not is the mode saved |
| SceneEl.NewSceneNotEditable | js/modules/elements/lightsceneelement.js:323-332 | a newly built scene's name is not editable |
| Bridge.CreatedId | js/modules/hue/bridgeconnector.js:241 | an id is taken only from a successful answer |
| Bridge.SwitchOnPuts | js/modules/hue/bridgeconnector.js:246-248 | one `{on: true}` PUT per member of a new scene, in key order |
| Bridge.TargetPuts | js/modules/hue/bridgeconnector.js:275-278 | one PUT per target lightstate, carrying that state, in order |
| Bridge.Serialized | js/modules/hue/bridgeconnector.js:429 | JSON writes a field iff it is not undefined, and NaN becomes null |
| Bridge.Payload | js/modules/hue/bridgeconnector.js:436-453 | the payload holds exactly the accepted fields that the data defines, serialised |
| Bridge.Whole | js/modules/hue/bridgeconnector.js:494-495 | a raw payload keeps every defined field, serialised |
| Bridge.PayloadIdempotent | js/modules/hue/bridgeconnector.js:437-453 | whitelisting a whitelisted payload changes nothing |
| Bridge.PayloadIgnoresOtherFields | js/modules/hue/bridgeconnector.js:437-453 | two states that agree on the accepted fields give the same payload |
| Bridge.IndexOf | js/modules/hue/bridgeconnector.js:172 | `indexOf` finds the first occurrence |
| Bridge.FirstOccurrencesMeaning | js/modules/hue/bridgeconnector.js:172 | removing duplicates gives a duplicate-free list with exactly the same elements |
| Bridge.FirstOccurrencesOrdered | js/modules/hue/bridgeconnector.js:172 | duplicate removal keeps the order of first occurrences |
| Bridge.MemberItems | js/modules/hue/bridgeconnector.js:140-141 | the member values in key order, with undefined where the cache lacked the light |
| Bridge.GroupsHoldingMeaning | js/modules/hue/bridgeconnector.js:150-154 | an element is listed for a light iff it is a saved group whose members hold that light |
| Bridge.GroupHitsWithin | js/modules/hue/bridgeconnector.js:148-170 | everything the per-light loops add is a saved group |
| Bridge.TargetsWithin | js/modules/hue/bridgeconnector.js:132-175 | the refreshed list is duplicate-free, lies within the target, its members and the saved groups, and holds no scene but the target |
| Bridge.Tagged | js/modules/hue/bridgeconnector.js:502 | the data is tagged with its key and otherwise kept |
| Bridge.ListedLightsMeaning | js/modules/hue/bridgeconnector.js:527-528 | a light is grouped after the first n entries iff one of them lists it |
| Bridge.StatesTotalFails | js/modules/hue/bridgeconnector.js:388-393 | the count fails iff some scene has no lightstates |
| Bridge.StatesTotalAppend | js/modules/hue/bridgeconnector.js:384-393 | counting is additive over consecutive runs of scenes |
| Bridge.ProgressReports | js/modules/hue/bridgeconnector.js:391-392 | one report per scene, numbered from 1, with the maximum 2048 and the scene count; the last carries the total |
| Bridge.QueryStep | js/modules/hue/bridgeconnector.js:388-393 | one loop step adds one GET, the scene's lightstate count and one report |
| Bridge.SceneFetches | js/modules/hue/bridgeconnector.js:389 | one GET per scene key, in order |
| Bridge.BridgeConnector.constructor | js/modules/hue/bridgeconnector.js:19-35 | every map and draft list starts empty and nothing has been sent |
| Bridge.BridgeConnector.NewGroup | js/modules/hue/bridgeconnector.js:67-82 | a fresh unsaved "New Group" without id or members is appended to the drafts and announced |
| Bridge.BridgeConnector.NewScene | js/modules/hue/bridgeconnector.js:84-99 | a fresh unsaved "New Scene" is appended to the drafts and announced |
| Bridge.BridgeConnector.DeleteScene | js/modules/hue/bridgeconnector.js:214-226 | a draft leaves the drafts with no request; a saved scene is DELETEd and leaves the map only on success, with an error reported otherwise; a change event fires in every case |
| Bridge.BridgeConnector.DeleteGroup | js/modules/hue/bridgeconnector.js:289-301 | the same for groups |
| Bridge.BridgeConnector.CreateScene | js/modules/hue/bridgeconnector.js:233-259 | a POST of name, members and `recycle: false`; without an id only an error; with one, a GET, the switch-on PUTs and the scene saved with the tagged reply; it completes iff every listed light is cached and the flags are defined, and only then does the scene move from the drafts to the map with a change event |
| Bridge.BridgeConnector.StoreScene | js/modules/hue/bridgeconnector.js:249-255 | the scene takes the tagged reply and the saved mode; it completes iff every listed light is cached and the flags are defined, and only then leaves the drafts for the map with a change event; otherwise drafts, map and events are unchanged |
| Bridge.BridgeConnector.RegisterScene | js/modules/hue/bridgeconnector.js:252-254 | the scene leaves the drafts, is cached under its id, and a change event fires |
| Bridge.BridgeConnector.CreateGroup | js/modules/hue/bridgeconnector.js:317-338 | a POST of name, members and type "LightGroup"; without an id only an error; with one, a GET and the group saved with the tagged reply; it completes iff every listed light is cached, and only then does the group move from the drafts to the map with a change event |
| Bridge.BridgeConnector.UpdateScene | js/modules/hue/bridgeconnector.js:264-282 | a PUT of name, members and `storelightstate: true`; on success one PUT per target lightstate, otherwise an error; saved either way |
| Bridge.BridgeConnector.UpdateGroup | js/modules/hue/bridgeconnector.js:343-355 | a PUT of name and members; an error when it fails; saved and a change event either way |
| Bridge.BridgeConnector.UpdateLight | js/modules/hue/bridgeconnector.js:361-369 | a PUT of the name; an error when it fails |
| Bridge.BridgeConnector.SaveScene | js/modules/hue/bridgeconnector.js:203-209 | a scene with a truthy id is updated in place, otherwise created; the first request shows which |
| Bridge.BridgeConnector.SaveGroup | js/modules/hue/bridgeconnector.js:306-312 | the same for groups; creation without an id does not complete |
| Bridge.BridgeConnector.FillLights | js/modules/hue/bridgeconnector.js:499-511 | the cache gains exactly the answered keys; cached lights keep their identity, new ones are fresh and saved; every light shows its tagged entry |
| Bridge.BridgeConnector.FillNextLight | js/modules/hue/bridgeconnector.js:500-510 | one entry of the fill, keeping the earlier entries shown |
| Bridge.BridgeConnector.FillLight | js/modules/hue/bridgeconnector.js:501-509 | a light is reused or created for the key and takes the tagged data; its room and mode are kept |
| Bridge.BridgeConnector.FillGroups | js/modules/hue/bridgeconnector.js:513-534 | it completes iff every entry lists only cached lights; then every group shows its entry, the grouped lights and the rooms are updated as the entries say, and each light's room is that of the last room listing it; otherwise the earlier groups are kept and only listed lights were marked grouped |
| Bridge.BridgeConnector.FillEntry | js/modules/hue/bridgeconnector.js:515-533 | one entry keeps the progress invariant, or the fill stops at this entry because it lists a light the cache lacks (the group setter throws) |
| Bridge.BridgeConnector.DescribeEntry | js/modules/hue/bridgeconnector.js:516-532 | one entry: the group is described; it fails iff the entry lists a light the cache lacks, and then no light is marked; otherwise its lights are marked grouped and a room names them |
| Bridge.BridgeConnector.FillGroup | js/modules/hue/bridgeconnector.js:516-525 | a group is reused or created (fresh and saved) for the key and takes the tagged data; the other groups are untouched; it fails iff the entry lists a light the cache lacks |
| Bridge.BridgeConnector.SetRoom | js/modules/hue/bridgeconnector.js:529-531 | one light's room is set and every other light's room is kept |
| Bridge.BridgeConnector.MarkMembers | js/modules/hue/bridgeconnector.js:527-532 | the members are marked grouped, and for a room they take its name; on its own it fails iff a room lists an uncached light, which the fill never reaches because the group setter throws first |
| Bridge.BridgeConnector.FillScenes | js/modules/hue/bridgeconnector.js:536-549 | only unknown keys get a fresh scene showing its entry; cached scenes are kept as they are; the map itself is returned; it completes iff every new entry lists only cached lights and has defined flags, and otherwise stops at the first that does not |
| Bridge.BridgeConnector.FillScene | js/modules/hue/bridgeconnector.js:537-546 | a known key changes nothing; an unknown one adds a fresh scene showing the entry, and completes iff the entry lists only cached lights and has defined flags |
| Bridge.BridgeConnector.UpdateElement | js/modules/hue/bridgeconnector.js:180-198 | one GET for the element's kind and id, and the tagged answer stored through its setter; it fails iff a group's answer lists an uncached light, or a scene's answer does or has undefined flags |
| Bridge.BridgeConnector.RefreshNext | js/modules/hue/bridgeconnector.js:172-174 | one refresh step keeps the log and the refreshed prefix in step, and fails iff that element's setter throws |
| Bridge.BridgeConnector.UpdateFor | js/modules/hue/bridgeconnector.js:132-175 | with the target's member keys enumerated once each (its `for…in`), the de-duplicated target list is refreshed in order and the log holds exactly its GETs up to the first element whose setter throws, where it stops |
| Bridge.BridgeConnector.PutThenUpdate | js/modules/hue/bridgeconnector.js:481-482 | a PUT followed by `updateFor` of the state before it, stopping at the first setter that throws |
| Bridge.BridgeConnector.RefreshAll | js/modules/hue/bridgeconnector.js:172-174 | a duplicate-free list is refreshed in order; it completes iff no setter throws, and otherwise stops right after the one that does |
| Bridge.BridgeConnector.QueryLightstateInformation | js/modules/hue/bridgeconnector.js:376-400 | a GET of all scenes, then one per scene; the result is {max 2048, total} iff every scene has lightstates, with one progress report per counted scene |
| Bridge.BridgeConnector.Reload | js/modules/hue/bridgeconnector.js:405-418 | the three GETs; the answered lights are cached; the groups complete iff every group lists only cached lights, the scenes iff every new scene does and has defined flags; the load event fires only when both complete |
| Bridge.BridgeConnector.FillRest | js/modules/hue/bridgeconnector.js:48-62 | the group and scene fills after the lights, each completing under the same condition as in `Reload`; the load event fires iff both complete |
| Bridge.BridgeConnector.SetLightState | js/modules/hue/bridgeconnector.js:435-459 | with a state or data: the whitelisted PUT, the light's GET, then `updateFor` of the light up to the first setter that throws; nothing otherwise |
| Bridge.BridgeConnector.PutLightState | js/modules/hue/bridgeconnector.js:436-458 | the PUT, the GET and the refresh of the light and the groups holding it, up to the first setter that throws |
| Bridge.BridgeConnector.RefreshLight | js/modules/hue/bridgeconnector.js:455-458 | the light's refresh list is the light followed by the saved groups holding it, de-duplicated; it stops at the first group whose setter throws |
| Bridge.BridgeConnector.SetGroupState | js/modules/hue/bridgeconnector.js:461-483 | with a state or data: the whitelisted action PUT, then `updateFor` of the group up to the first setter that throws; nothing otherwise |
| Bridge.BridgeConnector.PutGroupAction | js/modules/hue/bridgeconnector.js:463-482 | the action PUT and the refresh of the group's targets, up to the first setter that throws |
| Bridge.BridgeConnector.SetSceneState | js/modules/hue/bridgeconnector.js:485-492 | the recall PUT on group 0 with the scene id, then `updateFor` of the scene, up to the first setter that throws |
| Bridge.BridgeConnector.SetAllLightsState | js/modules/hue/bridgeconnector.js:494-497 | the raw payload PUT on group 0 and nothing else |
| Bridge.Registry.constructor | js/modules/hue/bridgeconnector.js:562 | the instance table starts empty |
| Bridge.Registry.Connect | js/modules/hue/bridgeconnector.js:10-17 | a known host and user returns the cached connector unchanged; otherwise a fresh, empty one is registered |
| Bridge.ConnectTwice | js/modules/hue/bridgeconnector.js:10-17 | a second construction returns the first connector, with the first protocol |
| Clicks.LightIconClicked | js/modules/elements/lightelement.js:129-132 | with data: the PUT carries the flipped on value, then the light's GET and refresh, up to the first setter that throws; nothing is sent without data |
| Clicks.LightSaveClicked | js/modules/elements/lightelement.js:136-140 | the rename PUT is sent, and the light is saved and keeps its name |
| Clicks.GroupIconClicked | js/modules/elements/lightgroupelement.js:352-361 | with data: the action PUT carries the flipped on value (where the group has a state); nothing is sent without data |
| Clicks.GroupSaveClicked | js/modules/elements/lightgroupelement.js:372-380 | refused with no members at all; otherwise the staged lights are committed and the group is created or updated |
| Clicks.SceneSaveClicked | js/modules/elements/lightsceneelement.js:417-426 | the same for scenes |
| Clicks.GroupDeleteClicked | js/modules/elements/lightgroupelement.js:399-403 | a saved group is deleted only when confirmed; a draft is dropped without asking |
| Clicks.SceneDeleteClicked | js/modules/elements/lightsceneelement.js:445-449 | the same for scenes |
| LightControl.ToInt32 | js/modules/elements/lightcontrolelement.js:125-127 | a bitwise operand is its value modulo 2^32 in signed range, and NaN becomes 0 |
| LightControl.DigitRun | js/modules/elements/lightcontrolelement.js:120 | `parseInt` reads the longest run of digits |
| LightControl.ParseIntDigitsThenRest | js/modules/elements/lightcontrolelement.js:116 | decimal digits followed by a non-digit parse to the digits' value |
| LightControl.Split | js/modules/elements/lightcontrolelement.js:115 | the parts contain no separator |
| LightControl.SplitJoin | js/modules/elements/lightcontrolelement.js:115 | joining the parts with the separator gives back the text |
| LightControl.RgbComponentsPacking | js/modules/elements/lightcontrolelement.js:113-117 | as written, `rgb(r,g,b)` in decimal packs to r + 256g + 65536b, the first component in the low byte |
| LightControl.RgbSpellingParts | js/modules/elements/lightcontrolelement.js:113-115 | the text inside "rgb(x,y,z)" splits into the three parts when none holds a comma |
| LightControl.SplitThree | js/modules/elements/lightcontrolelement.js:115 | three comma-free texts joined by commas split back into the three |
| LightControl.AsWrittenRgbNumberOf | js/modules/elements/lightcontrolelement.js:113-117 | as written, "rgb(x,y,z)" packs its parts in the order given |
| LightControl.RgbNumberOf | js/modules/elements/lightcontrolelement.js:113-117 | the corrected reading `RgbNumber` packs "rgb(x,y,z)" last part lowest, first part highest |
| LightControl.RgbTextNumber | js/modules/elements/lightcontrolelement.js:113-117 | the corrected reading `RgbNumber` of "rgb(r,g,b)" is 65536r + 256g + b, as for "#rrggbb" |
| LightControl.SplitAtSeparator | js/modules/elements/lightcontrolelement.js:115 | splitting at the first separator peels off the text before it |
| LightControl.SplitWithoutSeparator | js/modules/elements/lightcontrolelement.js:115 | a text without the separator splits into itself |
| LightControl.ComponentsOfBytes | js/modules/elements/lightcontrolelement.js:124-128 | a number made of three bytes stores exactly those bytes, high first |
| LightControl.AsWrittenRgbSwapsRedAndBlue | js/modules/elements/lightcontrolelement.js:106-128 | the setter stores "rgb(r,g,b)" as (b, g, r), which differs from (r, g, b) whenever r and b differ |
| LightControl.RgbComponentsInOrder | js/modules/elements/lightcontrolelement.js:113-128 | the corrected reading `RgbNumber`, first component high, stores "rgb(r,g,b)" as exactly (r, g, b) |
| LightControl.SatNumberOfRgb | js/modules/elements/lightcontrolelement.js:106-117 | the setter parses "rgb(r,g,b)" to r + 256g + 65536b |
| LightControl.RgbTextIsRgb | js/modules/elements/lightcontrolelement.js:106-113 | "rgb(r,g,b)" takes the setter's "rgb(" branch |
| LightControl.RgbSpellingIsRgb | js/modules/elements/lightcontrolelement.js:106-113 | any text spelled "rgb(x,y,z)" takes the setter's "rgb(" branch |
| LightControl.AsWrittenRgbTextNumber | js/modules/elements/lightcontrolelement.js:113-117 | as written, "rgb(r,g,b)" in decimal is r + 256g + 65536b |
| LightControl.Reversed | js/modules/elements/lightcontrolelement.js:117 | the reversed parts, element by element |
| LightControl.ShiftedSumOfBytes | js/modules/elements/lightcontrolelement.js:113-117 | three parts parsing to bytes pack to r + 256g + 65536b |
| LightControl.ShiftByte | js/modules/elements/lightcontrolelement.js:117 | shifting a byte left by 0, 8 or 16 bits multiplies it by the power of two |
| LightControl.DecParses | js/modules/elements/lightcontrolelement.js:116 | the decimal text of a byte parses back to it |
| LightControl.Components | js/modules/elements/lightcontrolelement.js:124-128 | the three components are bytes |
| LightControl.PackComponents | js/modules/elements/lightcontrolelement.js:99-104 | the getter applied to the components of any value gives its low 24 bits |
| LightControl.PackComponentsSmall | js/modules/elements/lightcontrolelement.js:99-128 | a 24-bit colour round-trips through the setter and the getter |
| LightControl.NaNIsBlack | js/modules/elements/lightcontrolelement.js:120-128 | unparsable text sets the colour to black |
| LightControl.ColorRange.constructor | js/modules/elements/lightcontrolelement.js:25-36 | a new slider is in hue mode with no saturation colour |
| LightControl.ColorRange.SetSatColor | js/modules/elements/lightcontrolelement.js:106-132 | the components are those of the parsed number, where "rgb(a,b,c)" parses to a + 256b + 65536c and so is stored as (c, b, a); the getter then yields its low 24 bits, or 0 for NaN |
| LightControl.ColorRange.SetMode | js/modules/elements/lightcontrolelement.js:79-97 | hue, bw and sat are kept and any other value falls back to hue; sat mode with a missing or black colour sets magenta, and the colour is otherwise kept |
| LightControl.Lower | js/modules/elements/lightcontrolelement.js:450 | lower-casing folds every character and leaves no capital letter |
| LightControl.Fold | js/modules/elements/lightcontrolelement.js:450 | a folded character is never a capital; capitals move to lower case and everything else is kept |
| LightControl.LowerIdempotent | js/modules/elements/lightcontrolelement.js:450 | lower-casing twice equals lower-casing once |
| LightControl.CapabilitiesTable | js/modules/elements/lightcontrolelement.js:449-497 | every known type supports on; bri iff not an on/off type; colour iff a colour or extended colour light; ct iff a colour temperature or extended colour light |
| LightControl.CapabilitiesCaseInsensitive | js/modules/elements/lightcontrolelement.js:449-450 | two types that differ only in the case of letters select the same row |
| LightControl.LowerSameIffFoldsAgree | js/modules/elements/lightcontrolelement.js:450 | two texts lower-case to the same string iff they have the same length and agree character by character up to case |
| LightControl.DimmableAnyCase | js/modules/elements/lightcontrolelement.js:449-470 | "Dimmable Light" selects the dimmable row |
| LightControl.ColorAndCtExclusive | js/modules/elements/lightcontrolelement.js:719-846 | confirming a colour sets hue and sat and drops ct and xy; confirming a temperature sets ct and drops hue and sat; other fields are kept |
| LightControl.RemoveDeletesOnlyItsFields | js/modules/elements/lightcontrolelement.js:571-831 | each Remove button deletes only its own fields (on; bri; ct; hue and sat) |
| LightControl.LightControlElement.constructor | js/modules/elements/lightcontrolelement.js:395-404 | a known type sets its capabilities (none otherwise); the lightstate is stored and its buttons are active |
| LightControl.LightControlElement.SetType | js/modules/elements/lightcontrolelement.js:449-497 | a known type sets its capabilities and an unknown one leaves them |
| LightControl.LightControlElement.SetLightstate | js/modules/elements/lightcontrolelement.js:435-442 | the state is stored and the active buttons follow it |
| LightControl.LightControlElement.OnClosed | js/modules/elements/lightcontrolelement.js:536-592 | the lightstate becomes the on-popup's edit of the old one |
| LightControl.LightControlElement.BriClosed | js/modules/elements/lightcontrolelement.js:594-660 | the lightstate becomes the brightness edit |
| LightControl.LightControlElement.CtClosed | js/modules/elements/lightcontrolelement.js:662-731 | the lightstate becomes the temperature edit |
| LightControl.LightControlElement.ColorClosed | js/modules/elements/lightcontrolelement.js:733-854 | the lightstate becomes the colour edit |
| LightControl.ActiveButtons | js/modules/elements/lightcontrolelement.js:435-439 | a button is active iff its field (on, bri, hue, ct) is defined |
| HomeConfig.DomList.RemoveChild | js/modules/elements/homelightingconfiguration.js:11 | the child leaves the list |
| HomeConfig.DomList.Append | js/modules/elements/homelightingconfiguration.js:508 | appending moves the node to the end |
| HomeConfig.OtherKindsMeaning | js/modules/elements/homelightingconfiguration.js:8-14 | a node survives clearing iff it was a child of another kind |
| HomeConfig.ClearDom | js/modules/elements/homelightingconfiguration.js:8-14 | the children of the given kind are removed and the rest keep their order |
| HomeConfig.OtherKindsNone | js/modules/elements/homelightingconfiguration.js:8-14 | no node of the cleared kind remains |
| HomeConfig.OtherKindsDistinct | js/modules/elements/homelightingconfiguration.js:8-14 | clearing keeps the children distinct |
| HomeConfig.LightNodesMeaning | js/modules/elements/homelightingconfiguration.js:504-512 | a light goes to the grouped list iff its id is grouped, and to the ungrouped list otherwise |
| HomeConfig.LightNodesSplit | js/modules/elements/homelightingconfiguration.js:506-511 | every light lands in exactly one of the two lists |
| HomeConfig.GroupNodesMeaning | js/modules/elements/homelightingconfiguration.js:524-545 | a group is listed among rooms iff it is a room |
| HomeConfig.GroupNodesSplit | js/modules/elements/homelightingconfiguration.js:524-545 | every saved group lands in exactly one of the groups and rooms lists |
| HomeConfig.SceneNodesMeaning | js/modules/elements/homelightingconfiguration.js:559-565 | a scene is listed iff all are shown or the configured user owns it |
| HomeConfig.SceneNodesShowAll | js/modules/elements/homelightingconfiguration.js:562 | with "show all", every scene is listed in order |
| HomeConfig.PlaceLights | js/modules/elements/homelightingconfiguration.js:504-512 | each list gains its lights in sorted order |
| HomeConfig.PlaceGroups | js/modules/elements/homelightingconfiguration.js:524-528 | the list gains the groups of its kind in sorted order |
| HomeConfig.PlaceScenes | js/modules/elements/homelightingconfiguration.js:559-569 | the list gains the listed scenes in order |
| HomeConfig.FirstCollapsible | js/modules/elements/homelightingconfiguration.js:457-460 | the nearest collapsible ancestor, or none when there is no collapsible ancestor |
| HomeConfig.ExistingMeaning | js/modules/elements/homelightingconfiguration.js:477-486 | an id survives pruning iff its section exists |
| HomeConfig.ExistingIdempotent | js/modules/elements/homelightingconfiguration.js:477-486 | pruning twice equals pruning once |
| HomeConfig.HomeLightingConfiguration.SwitchSectionExpand | js/modules/elements/homelightingconfiguration.js:456-473 | the nearest collapsible section toggles; collapsing appends its id and expanding removes every occurrence; the list is written to the configuration; without such a section nothing changes |
| HomeConfig.HomeLightingConfiguration.PruneCollapsedIds | js/modules/elements/homelightingconfiguration.js:477-486 | the ids of missing sections are removed in order, and the existing sections are marked collapsed |
| HomeConfig.HomeLightingConfiguration.PruneAt | js/modules/elements/homelightingconfiguration.js:478-485 | one step of the splice loop keeps the pruned prefix and the index in step |
| HomeConfig.SwitchTwice | js/modules/elements/homelightingconfiguration.js:466-472 | switching twice restores the collapsed set and removes the id from the list |
| HomeConfig.RefreshLights | js/modules/elements/homelightingconfiguration.js:499-512 | both lists lose their lights and gain the sorted grouped or ungrouped lights |
| HomeConfig.ShowGroups | js/modules/elements/homelightingconfiguration.js:522-528 | a list loses its groups and gains the sorted groups of its kind |
| HomeConfig.ShowSavedGroups | js/modules/elements/homelightingconfiguration.js:518-545 | the saved groups are partitioned into the groups and rooms lists |
| HomeConfig.RefreshGroups | js/modules/elements/homelightingconfiguration.js:517-546 | the groups, drafts and rooms lists are rebuilt, and the drafts list becomes its sorted version |
| HomeConfig.ShowScenes | js/modules/elements/homelightingconfiguration.js:554-565 | a list loses its scenes and gains the listed ones |
| HomeConfig.RefreshScenes | js/modules/elements/homelightingconfiguration.js:549-570 | the saved scenes are filtered by owner unless all are shown, and every draft is listed |

## Left out

- **HTTP transport.** `fetch`, URLs, JSON parsing and the serialisation of
  requests are left out. A request is a path, a verb and a structured body,
  and each answer is a parameter.
- **Promises and ordering.** Promise plumbing and the cached `lightsLoaded`,
  `groupsLoaded` and `scenesLoaded` promises are not modelled. Operations
  run in the order the code awaits them, and concurrent interleavings are
  out of scope.
- **The scene's lightstate loading.** The `lightstatesReady` getter is not
  modelled. `updateScene` takes the resolved target lightstates as a
  parameter.
- SceneEl.LightSceneElement.SetData: its flags and its `completed` follow
  the intended flags loop (`SceneFlags`). As written, the loop visits no
  light, so the flags are always (true, false) and the loop never throws
  (see "## Findings", `SceneEl.AsWrittenMisreportsLightOff`).
- **The `setState` dispatch.** The `instanceof` dispatch is not modelled.
  Its branches are the separate methods `SetLightState`, `SetGroupState`,
  `SetSceneState` and `SetAllLightsState`.
- **JavaScript `sort`.** Sorting is not re-implemented. The sorted order is
  an input to the view methods, and the sorter lemmas state the order it
  follows.
- **Key order.** The order of `for…in` and `Object.keys` is an input that
  enumerates the keys.
- **Rendering.** Shadow DOM, CSS classes, drag and drop and the "busy"
  markers are left out, and so is the canvas drawing of the colour slider.
  Of `_refreshLightsDom` only its throw on an uncached member is modelled;
  the nodes it builds and their sort order are not.
- **The DOM lists.** They are lists of nodes, and `Append` moves a node only
  within its own list. A node that sits in a list the view does not clear
  is not moved out of it. After `clearDom` no node of the placed kind is
  left in either list, so the placement methods need no such move.
- **`_fillSceneLightstates`.** It is not part of this model.
- **The configuration store.** `js/modules/configuration.js` is not part of
  this model. Its writes are recorded as `configWrites`.
- **`setTempState`.** The live preview while a popup slider moves is not
  modelled.
- **The light reset after a popup.** After a popup closes, the source calls
  `setState(light)`. That call is the request `SetLightState` models, and
  the popup methods do not repeat it.
- **Floating point.** Rounding of hue and saturation and `parseFloat` of
  slider positions are not modelled. A confirmed colour is a pair of
  already rounded integers.
- **`satColor` attribute.** The attribute text that the `satColor` setter
  writes is not modelled.
- **LightControl.DigitsValue:** it accepts only radix 10 and 16, the only
  radixes the source passes to `parseInt`.
- **LightControl.ParseInt:** digit strings beyond 2^53 are read exactly,
  where JavaScript rounds them to the nearest double. Every value the
  colour code uses fits in 32 bits, where the two agree.
- **LightControl.Lower:** it folds ASCII letters only. `toLowerCase` folds
  all of Unicode, and every type name in the table is ASCII.
- **Sorter.StrLessTrichotomy:** strings are compared by character. The
  source compares UTF-16 code units, which differs only for characters
  outside the Basic Multilingual Plane.
- **Bridge.BridgeConnector.FillGroups:** it does not restate that new groups
  are fresh and saved. `Bridge.BridgeConnector.FillGroup` states that per
  entry.
- **Clicks.GroupIconClicked:** it states the action PUT and the flipped on
  value only. The refresh that follows is stated by
  `Bridge.BridgeConnector.PutGroupAction`.
- **Clicks.GroupSaveClicked:** it states the first request and the commit of
  the staged lights only. `Bridge.BridgeConnector.SaveGroup`,
  `CreateGroup` and `UpdateGroup` state the rest.
- **Clicks.SceneSaveClicked:** the same as `Clicks.GroupSaveClicked`, with
  `SaveScene`, `CreateScene` and `UpdateScene` stating the rest.
- **HomeConfig.RefreshGroups:** it stores the sorted drafts list after
  filling the lists, not before. Nothing in between reads that list, so the
  final state is the same.
- **Console messages and alerts.** `console.error` is not modelled. Alerts
  are only recorded as `ErrorReported`.

## Findings

| source | as written | input that shows it | evidently intended | confidence | as-written member | corrected member |
|---|---|---|---|---|---|---|
| js/modules/elements/lightcontrolelement.js:113-117 | The `rgb(` branch shifts component `i` left by `8 * i` bits, so the first component (red) lands in the low byte. The components are then read with red in the high byte (124-128), as for "#rrggbb". | "rgb(255,0,0)" is stored as (0, 0, 255), blue, while "#ff0000" is stored as (255, 0, 0), red | Shift component `i` by `8 * (2 - i)` bits, so that "rgb(r,g,b)" and "#rrggbb" give the same colour. The model keeps this corrected reading as `RgbNumber`, apart from the setter, which follows the code. | not executed | LightControl.AsWrittenRgbSwapsRedAndBlue | LightControl.RgbComponentsInOrder |
| js/modules/elements/lightsceneelement.js:267-290 | The flags loop iterates `this._lightstates`, but the `lightstates` setter (307-309) stores a Promise there, or it is still undefined. `for…in` visits no key of either, and the `=== null` test never holds. So every scene gets `on = true` and `any_on = false`. | A scene with target light "1" = {on: true, bri: 100} while light 1's live state is {on: false} | Iterate the target lightstates themselves. A light that is off gives neither flag. All on and matching gives `on`. All on with a mismatch gives `any_on`. | not executed | SceneEl.AsWrittenMisreportsLightOff | SceneEl.SceneFlagsTable |
