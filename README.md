# VAIC editor core, modelled in Dafny

VAIC is a Bevy-based 3D editor for assembling robot parts. This project
models the logic that runs behind the editor's screens, one deterministic
step per frame over explicit state:

- the mounting-point ("constraint") workflow:
  - its mounting-point table;
  - the spawning of hidden marker entities under a placed part;
  - the two-slot picker that pairs two clicked markers;
  - the aligner that moves the first marker's part onto the second;
  - constraining mode, and the marker visibility that follows it;
- the action log (`Action`, `ActionList`) and the three places that append to it;
- object selection, unselection and deletion for the move gizmo, and the guards of the gizmo update;
- the part selector's name tables and the `Pressed` branch of its button system;
- the parts-list panel's rows;
- the scene-handle lookup;
- the save-age timer and its "Saved … ago" label;
- the control-state code in the settings;
- the gizmo-mode key toggle;
- cursor-delta tracking.

Modelling choices:

- The engine's entity-component store is `Ecs.World`: a map from live
  entities to the components the core reads or writes, plus the allocator
  position.
- A Bevy system is one method on that store. Deferred commands take effect
  in the order the system issues them.
- `State<S>` together with `NextState<S>` is the generic `Ecs.StateMachine`.
  `Set` records a request. `Apply` is the transition step: it reports which
  state was exited and which entered, which is when the `OnEnter`/`OnExit`
  systems run.
- Vectors, quaternions and transforms are over exact reals
  (`Geometry`, which uses glam's Hamilton product and glam's `inverse` as the conjugate).
- Pure code (tables, conversions, labels) is a set of functions with lemmas.
  Code that updates state is methods on classes, with loops where the code
  loops, each proved against a specification function.

The model follows the code where it behaves oddly:

- a self-pairing ends a batch of pairings (`break`), and it compares entity indices only;
- a capture stores the component-wise *sum* of two rotations. `HandleConstraints.AlignIdentityCaptures` proves that pairing two
  unrotated markers multiplies the part's rotation by 4;
- `update_parts_list` appends a row even for a placeholder entity, while a rebuild skips it;
- a press of T in scale mode gives translate;
- a save age of zero seconds reads "Saved 0 secs ago".

## Model

| member | source | states |
|---|---|---|
| HandleConstraints.ConstrainTo | src/constraints/handle_constraints.rs:32-41 | the new translation is offset from the part's by curr − other, and the scale is reset to one, not kept |
| HandleConstraints.ConstrainToSelf | src/constraints/handle_constraints.rs:32-41 | aligning a mounting point with itself (unit rotation) keeps the part's translation and rotation; only the scale becomes one |
| HandleConstraints.FirstSelfPairing | src/constraints/handle_constraints.rs:20-23 | the position where the batch stops: no event before it pairs two entities of the same index, and the event there does |
| HandleConstraints.FirstSelfPairingIgnoresRest | src/constraints/handle_constraints.rs:20-23 | events queued after a self-pairing never change where the batch stops |
| HandleConstraints.SameIndexStops | src/constraints/handle_constraints.rs:21 | two different entities that share a slot index still stop the batch, because the generation is not compared |
| HandleConstraints.ApplyEvents | src/constraints/handle_constraints.rs:24-27 | applying pairings keeps the set of entities, their Part flag and whether each entity has a transform |
| HandleConstraints.ApplyEventsFrame | src/constraints/handle_constraints.rs:24-27 | pairings change transforms only, and an entity that is not the moving part of any applied pairing keeps every component |
| HandleConstraints.ConstrainedActions | src/constraints/handle_constraints.rs:28 | one log entry per applied pairing, in order, each the unmodified event as `Constrained` |
| HandleConstraints.SinglePairing | src/constraints/handle_constraints.rs:20-29 | for one pairing of different indices, only parents[0] changes, parents[1] keeps its components, and exactly one `Constrained(e)` is logged |
| HandleConstraints.AlignPart | src/constraints/handle_constraints.rs:24-28 | one iteration: the moving part's transform becomes ConstrainTo of it, and the event is appended to the log |
| HandleConstraints.HandleConstraintEvent | src/constraints/handle_constraints.rs:15-30 | the store is the batch applied up to its first self-pairing, and the log gains exactly those events, in order. The reader consumes the events up to and including the self-pairing; the rest are returned as unread |
| HandleConstraints.Capture | src/constraints/handle_constraints.rs:81-88 | a capture's translation plus the parent's gives back the marker's translation, and its scale is one |
| HandleConstraints.CaptureOfIdentities | src/constraints/handle_constraints.rs:85 | summing two identity rotations gives the quaternion (0,0,0,2), which is not a rotation |
| HandleConstraints.AngleBetweenDoubles | src/constraints/handle_constraints.rs:35 | the conjugate product of two such captures is the real quaternion 4 |
| HandleConstraints.AlignIdentityCaptures | src/constraints/handle_constraints.rs:35-38 | pairing captures of two unrotated markers on unrotated parts multiplies the moving part's rotation by 4 |
| HandleConstraints.ClickSlots | src/constraints/handle_constraints.rs:74-108 | a click fills the first empty slot. Slot 0 gets the parent and the capture, and slot 1 is untouched. Filling slot 1 sends one event in click order and empties every slot. It keeps the invariant that slot 1 is empty and that a slot has a parent exactly when it has a capture |
| HandleConstraints.TwoClicks | src/constraints/handle_constraints.rs:74-108 | two clicks from empty slots send nothing, then one event with both captures in click order, and leave the slots empty |
| HandleConstraints.ConstraintOperation.constructor | src/constraints/handle_constraints.rs:108 | the default operation has every slot empty |
| HandleConstraints.ConstraintOperation.Click | src/constraints/handle_constraints.rs:74-108 | the in-place slot updates equal ClickSlots and keep the slot invariant |
| HandleConstraints.FirstPickable | src/constraints/handle_constraints.rs:56-69 | None exactly when no hit is a marker; otherwise the nearest hit that is one |
| HandleConstraints.PaintMarkers | src/constraints/handle_constraints.rs:117-120 | every marker's material gets the colour; nothing else changes |
| HandleConstraints.SelectConstraints | src/constraints/handle_constraints.rs:43-123 | no ray: nothing changes. A ray that hits no marker: every marker turns red and the slots are kept. Otherwise the hit marker turns sea green on a click and blue otherwise. A click on a marker with a transform and a parent updates the slots as ClickSlots does; any other case keeps the slots. It requires that such a marker's parent has a transform, which the code unwraps |
| Actions.ExactlyOneKind | src/actions.rs:16-40 | exactly one of is_placed, is_constrained, is_deleted and is_placeholder holds for every action |
| Actions.FromPlacedPart | src/actions.rs:43-47 | the action built from a placed part is a Placed action |
| Actions.IntoPlacedPart | src/actions.rs:49-59 | defined on Placed only; converting back with From gives the same action |
| Actions.PlacedPartRoundTrip | src/actions.rs:43-59 | a placed part converted to an action and back keeps its name and entity |
| Actions.FromConstraintEvent | src/actions.rs:61-65 | the action built from an event is a Constrained action |
| Actions.IntoConstraintEvent | src/actions.rs:67-74 | defined on Constrained only; converting back with From gives the same action |
| Actions.ConstraintEventRoundTrip | src/actions.rs:61-74 | an event converted to an action and back is the same event |
| Actions.ActionList.constructor | src/actions.rs:5-6 | the log starts empty |
| Actions.ActionList.Push | src/actions.rs:5-6 | push appends exactly the given action |
| AddConstraints.GetConstraintData | src/constraints/add_constraints.rs:69-165 | a name has mounting points exactly when it is one of the two C-channels |
| AddConstraints.ChannelTables | src/constraints/add_constraints.rs:106-159 | "2x1 C-Channel" has five points, and "2x25 C-Channel" has the same five in the same order |
| AddConstraints.OtherNamesHaveNone | src/constraints/add_constraints.rs:160-163 | every other name has no mounting point |
| AddConstraints.ChannelPointShapes | src/constraints/add_constraints.rs:107-131 | points 0 to 2 are unrotated. Points 3 and 4 share one z quarter turn. Every scale is one. Points 0/1 and 3/4 mirror each other in x |
| AddConstraints.PartsWithPoints | src/constraints/add_constraints.rs:105-164 | among the selector's parts, the two C-channels have five points and the others none |
| AddConstraints.Fresh | src/constraints/add_constraints.rs:42-62 | the ids the loop collects are the next n allocator handles, in order |
| AddConstraints.SpawnMarkersContents | src/constraints/add_constraints.rs:43-62 | spawning keeps every entity and adds exactly one hidden red marker per table entry, the k-th with entry k's transform |
| AddConstraints.SetParentsContents | src/constraints/add_constraints.rs:63-64 | push_children changes only the Parent of the listed entities |
| AddConstraints.AddMarkersContents | src/constraints/add_constraints.rs:42-64 | one event: every old entity is kept, and for each table entry k a hidden red marker with entry k's transform appears as a child of the part; nothing else appears |
| AddConstraints.AddAll | src/constraints/add_constraints.rs:26-65 | the allocator never moves back over a batch |
| AddConstraints.AddAllKeeps | src/constraints/add_constraints.rs:26-65 | a batch keeps every entity it started from, unchanged, and every entity stays below the allocator |
| AddConstraints.ChannelEventSpawnsFive | src/constraints/add_constraints.rs:26-65 | an event for a 2x1 C-channel part spawns its five points, in table order, as children of the part |
| AddConstraints.SpawnConstraintMarkers | src/constraints/add_constraints.rs:42-62 | the spawn loop yields SpawnMarkers and returns the fresh ids in table order |
| AddConstraints.PushChildren | src/constraints/add_constraints.rs:63-64 | the attach step yields SetParents |
| AddConstraints.AddEventMarkers | src/constraints/add_constraints.rs:42-64 | spawning then attaching yields AddMarkers and advances the allocator by the table length |
| AddConstraints.AddPartMarkers | src/constraints/add_constraints.rs:27-64 | one event looks up the part's name and spawns its points under it |
| AddConstraints.AddConstraintsEvent | src/constraints/add_constraints.rs:15-66 | the store and allocator after the events are AddAll over the whole batch. It requires that each event's entity is a Part whose PartName reverse_model_name accepts |
| Constraints.CheckForC | src/constraints/mod.rs:53-62 | pressing C requests PlacingDisabled and Constraining; without C nothing is requested |
| Constraints.ExitConstrain | src/constraints/mod.rs:64-73 | pressing Escape requests NotPlacing and NotConstraining; without Escape nothing is requested |
| Constraints.WithVisibilityEffect | src/constraints/mod.rs:75-85 | every marker gets the visibility; an entity that is not a marker keeps everything; a marker keeps all its other components |
| Constraints.WithVisibilityOverrides | src/constraints/mod.rs:75-85 | the later visibility wins: show then hide is hide, and each is idempotent |
| Constraints.SetMarkerVisibility | src/constraints/mod.rs:76-78 | the marker loop yields WithVisibility |
| Constraints.ShowConstraints | src/constraints/mod.rs:75-79 | every marker becomes Visible; nothing else changes |
| Constraints.HideConstraints | src/constraints/mod.rs:81-85 | every marker becomes Hidden; nothing else changes |
| Constraints.InitConstrainState | src/constraints/mod.rs:19 | the mode starts as NotConstraining with nothing pending, so no Constraining-only system runs in the first frame |
| Constraints.PickerFrame | src/constraints/mod.rs:24-28 | outside constraining mode the store, the slots and the log are unchanged, nothing is sent and every event stays unread. In constraining mode the log gains the pairings up to the first self-pairing, the rest stay unread, and the store and slots are what select_constraints makes of the store the pairings leave |
| Constraints.AddConstraintsFrame | src/constraints/mod.rs:31-34 | outside placing the store and the allocator are unchanged; while placing they are AddAll over the events |
| Constraints.ModeFrame | src/constraints/mod.rs:23-30 | one frame: the new mode is ModeAfter of the keys and the old mode. Escape while constraining leaves NotPlacing, C otherwise leaves PlacingDisabled, and with neither the pending placing request, if any, takes effect. Entering constraining shows the markers, leaving hides them, and with no change of mode the store is untouched |
| MoveObjects.FirstHit | src/move_objects/mod.rs:207-220 | None exactly when every hit is filtered out; otherwise the nearest hit that passes the filter |
| MoveObjects.InitMoveObjectsState | src/move_objects/mod.rs:21-31 | nothing is being moved at start-up and no request is pending |
| MoveObjects.ReselectMarksOne | src/move_objects/mod.rs:222-228 | after a reselect exactly the target carries CurrentlyMoving, and no other component changes |
| MoveObjects.UnmarkThenMark | src/move_objects/mod.rs:222-228 | removing every marker and then marking the target is a reselect |
| MoveObjects.ClearMoving | src/move_objects/mod.rs:222-224 | the removal loop unmarks every entity and changes nothing else |
| MoveObjects.SelectObject | src/move_objects/mod.rs:178-230 | something is selected exactly when the left button was just pressed, a part is placed, the mode is not constraining, there is a ray and a hit passes the filter. Then the first such hit is the only marked entity and Moving is requested. Otherwise nothing changes |
| MoveObjects.UnselectObject | src/move_objects/mod.rs:232-245 | Escape requests NotMoving and, with exactly one marked entity, unmarks it and changes nothing else. Without Escape nothing changes |
| MoveObjects.DeleteObject | src/move_objects/mod.rs:247-269 | X requests NotMoving. With exactly one target it appends exactly one Deleted entry for it and despawns it with its descendants. Otherwise the log and the store are unchanged. Without X nothing changes |
| MoveObjects.UpdateGizmoTarget | src/move_objects/mod.rs:81-176 | in constraining mode, with nothing marked or with no gizmo result, no transform changes and nothing is moved. Otherwise the single target is moved: it, and only it, takes the transform the gizmo reports |
| MoveObjectsUi.Toggled | src/move_objects/ui.rs:7-13 | T never gives Scale. Rotate gives Translate. The result is Rotate exactly when the mode was Translate |
| MoveObjectsUi.ToggledTwice | src/move_objects/ui.rs:7-13 | two presses of T return to Rotate or Translate; from Scale they lead to Rotate |
| MoveObjectsUi.GizmoOptions.ChangeGizmoMode | src/move_objects/ui.rs:6-20 | only while Moving (the run condition of src/move_objects/mod.rs:37-38): T toggles the mode and no T keeps it, and precision snap equals "L is held". Outside Moving the options are unchanged |
| MoveObjectsUi.GizmoOptions.constructor | src/move_objects/mod.rs:57-60 | setup starts in translate mode, with precision snapping given as a parameter |
| PartSelector.GetParts | src/ui/editor/part_selector.rs:112-120 | five distinct names: Duck, Cube, Penguin, 2x25 C-Channel, 2x1 C-Channel, in that order |
| PartSelector.LookupFirst | src/ui/editor/part_selector.rs:173-195 | a match on string literals takes the first arm with the key, and the default arm when there is none |
| PartSelector.TablesDistinct | src/ui/editor/part_selector.rs:173-195 | the keys of both matches are pairwise distinct |
| PartSelector.PartFilesListed | src/ui/editor/part_selector.rs:173-182 | the arms of get_model_name are the listed parts, in order, each mapped to a .glb file |
| PartSelector.PathRows | src/ui/editor/part_selector.rs:173-195 | row i of reverse_model_name inverts row i of get_model_name after the models/…#Scene0 formatting |
| PartSelector.ModelNameListed | src/ui/editor/part_selector.rs:173-182 | the file is a .glb exactly for listed names, and "duck" for any other text |
| PartSelector.ReverseModelNameInverts | src/ui/editor/part_selector.rs:184-195 | every accepted path names a listed part, and formatting that part's model file gives the path back |
| PartSelector.PathRoundTrip | src/ui/editor/part_selector.rs:173-195 | for every listed part, reverse_model_name of its formatted model path is the part |
| PartSelector.ModelNameInjective | src/ui/editor/part_selector.rs:175-179 | distinct listed parts have distinct model files |
| PartSelector.UnknownTextHasNoModel | src/ui/editor/part_selector.rs:180-193 | an unlisted button text formats to a path reverse_model_name rejects |
| PartSelector.ButtonColoursEach | src/ui/editor/part_selector.rs:137-169 | each changed button, in query order, gets the colour of its own interaction: AAAAAA pressed, 999999 hovered, 777777 otherwise |
| PartSelector.PressesAppend | src/ui/editor/part_selector.rs:137-141 | the presses of two runs of changes are the presses of the first followed by those of the second |
| PartSelector.PressesOne | src/ui/editor/part_selector.rs:140-141 | one change adds its label exactly when it is a press |
| PartSelector.PressEvent | src/ui/editor/part_selector.rs:143-157 | the request carries the formatted model path and the handle get_model_handle returns for that path, which is one of the loaded handles |
| PartSelector.PressEvents | src/ui/editor/part_selector.rs:136-157 | one request per press, in order |
| PartSelector.PlaceHolders | src/ui/editor/part_selector.rs:153 | n placeholder entries |
| PartSelector.StartPlacing | src/ui/editor/part_selector.rs:141-158 | requests NotPlacing, appends exactly one PlaceHolder, leaves exactly the store with every placing preview's subtree despawned, and sends the request for the pressed part |
| PartSelector.RespondToButton | src/ui/editor/part_selector.rs:137-170 | the colour for the interaction and the new cursor icon. A press outside constraining mode leaves the store, log and request StartPlacing leaves; any other change leaves the store, the log and the placing request alone |
| PartSelector.PressesLoggedStep | src/ui/editor/part_selector.rs:152-157 | one more press adds one PlaceHolder and one request |
| PartSelector.ClearedAgain | src/ui/editor/part_selector.rs:153-155 | clearing the previews on a later press leaves the store the first press left |
| PartSelector.ButtonSystem | src/ui/editor/part_selector.rs:122-171 | every changed button gets its colour, and the last hover or leave sets the icon. Outside constraining mode each press, in order, adds one PlaceHolder and one request, and any press requests NotPlacing and leaves exactly the store with the previews of the first press despawned (later presses find none). In constraining mode nothing but colours and icon changes |
| PartsList.KeptParts | src/ui/editor/parts_list.rs:65-71 | exactly the entries with a name and a real entity, no more than the list |
| PartsList.KeptPartsAppend | src/ui/editor/parts_list.rs:65-71 | filtering a concatenation filters each part, so the filter keeps list order |
| PartsList.RowsOfKept | src/ui/editor/parts_list.rs:65-93 | one row per kept entry, in order, each showing reverse_model_name of that entry's name |
| PartsList.RowsArePartNames | src/ui/editor/parts_list.rs:91-93 | every row shows one of the selector's part names |
| PartsList.Refreshed | src/ui/editor/parts_list.rs:181-259 | after any refresh event the panel is the header and one row per kept entry |
| PartsList.RefreshIdempotent | src/ui/editor/parts_list.rs:181-259 | refreshing twice gives the rows refreshing once gives |
| PartsList.AppendAgreesWithRebuild | src/ui/editor/parts_list.rs:115-168 | appending a kept entry adds the same row on a rebuild as the one-row update does. An entry with a name and the placeholder entity adds no row on a rebuild |
| PartsList.PartsListPanel.constructor | src/ui/editor/parts_list.rs:7-107 | the spawned panel is the header followed by the kept rows |
| PartsList.PartsListPanel.AppendRows | src/ui/editor/parts_list.rs:65-104 | the loop adds exactly the kept rows, in order |
| PartsList.PartsListPanel.UpdatePartsList | src/ui/editor/parts_list.rs:109-169 | an unchanged list, an empty one or one whose last entry has no name changes nothing. Otherwise exactly one row, for the last entry, is appended, without a placeholder check |
| PartsList.PartsListPanel.RefreshPartsList | src/ui/editor/parts_list.rs:174-261 | with no event nothing changes; with any number of events the panel is rebuilt once per event |
| TopBar.NatToString | src/ui/editor/top_bar.rs:40-44 | the printed number is non-empty and all decimal digits |
| TopBar.NatToStringRoundTrip | src/ui/editor/top_bar.rs:40-44 | reading the printed digits back gives the number |
| TopBar.NatToStringInjective | src/ui/editor/top_bar.rs:40-44 | different numbers print differently |
| TopBar.ArmOf | src/ui/editor/top_bar.rs:33-46 | every save age takes exactly one arm: never saved, 1, other below 60, 60 to 119, 120 and more |
| TopBar.SaveLabelArms | src/ui/editor/top_bar.rs:33-46 | the label of each arm: "Not saved yet!", "Saved 1 sec ago", "Saved n secs ago" (0 included), "Saved 1 min ago", "Saved n/60 mins ago" |
| TopBar.SaveLabelWholeMinutes | src/ui/editor/top_bar.rs:41-44 | from a minute on the label depends on whole minutes only |
| TopBar.SecsLabelDigits | src/ui/editor/top_bar.rs:40 | the seconds label holds the printed number between its fixed prefix and suffix |
| TopBar.SaveLabelSecondsDistinct | src/ui/editor/top_bar.rs:37-40 | below a minute, different ages give different labels |
| TopBar.SavedLabelsDiffer | src/ui/editor/top_bar.rs:34-46 | no saved age reads like "never saved" |
| TopBar.TopBarSaveTimer.constructor | src/ui/editor/top_bar.rs:32-65 | spawn_top_bar shows the label of the current save age |
| TopBar.TopBarSaveTimer.UpdateTopBarTimer | src/ui/editor/top_bar.rs:68-101 | unless the timer finished no text changes; otherwise every text shows the same label spawn computes |
| SaveTimer.MostRecentSave.constructor | src/saving/save_timer.rs:24-28 | the default is the epoch |
| SaveTimer.MostRecentSave.Set | src/saving/save_timer.rs:7-9 | the time is stored as given |
| SaveTimer.MostRecentSave.TimeSinceLastSave | src/saving/save_timer.rs:11-21 | None exactly for the epoch or a save after now; otherwise the whole seconds elapsed, rounded down |
| SaveTimer.UpdateSaveCountTimer.constructor | src/saving/save_timer.rs:36-41 | the default timer is one second and repeating |
| SaveTimer.UpdateSaveCountTimer.SetDuration | src/saving/save_timer.rs:56-58 | the duration is set and the mode kept |
| SaveTimer.DurationAfter | src/saving/save_timer.rs:51-60 | the duration becomes one minute or stays, and it changes only when the timer finished and a minute has passed |
| SaveTimer.TimeSinceLastSaveSystem | src/saving/save_timer.rs:44-62 | the duration after the system is DurationAfter; the mode is kept |
| SaveTimer.DurationAfterMinute | src/saving/save_timer.rs:51-60 | once one minute, the duration stays one minute |
| Save.SaveEvent | src/saving/save.rs:12-28 | the most recent save becomes now and the timer duration one second; no part is changed |
| Save.SavedJustNow | src/saving/save.rs:20 | asked at the instant of the save, the save age is zero seconds |
| Save.FreshSaveKeepsPace | src/saving/save.rs:20-23 | within a minute of a save the age is below 60 seconds, so the timer stays at one second |
| Settings.ControlStateOf | src/settings.rs:17-23 | the code 1 means TrackPadMode, and every other code PCMode |
| Settings.CodeOf | src/settings.rs:25-33 | the stored code is 0 or 1 |
| Settings.ControlStateRoundTrip | src/settings.rs:17-33 | storing a mode and reading it back gives the mode |
| Settings.CodeRoundTrip | src/settings.rs:17-33 | reading a code and storing its mode gives the code back exactly for 0 and 1 |
| Settings.Settings.constructor | src/settings.rs:46-55 | the default is code 0 (PC mode), sensitivities 0.8 and 0.2 on both axes, zoom 1 |
| Settings.Settings.GetControlState | src/settings.rs:17-23 | the stored code 1 reads as TrackPadMode and every other code as PCMode; a code of 0 or 1 is the code of the mode it reads as |
| Settings.Settings.SetControlState | src/settings.rs:25-35 | only the code changes, to the mode's code, and reading it back gives the mode |
| Handle.FirstMatch | src/ui/editor/handle.rs:11-15 | the first position whose path is the name, with no match before it, or the length |
| Handle.ModelHandle | src/ui/editor/handle.rs:10-17 | a handle of the list: one with the name's path when any has it, otherwise the first |
| Handle.GetModelHandle | src/ui/editor/handle.rs:10-17 | the early-return search yields ModelHandle. It requires a non-empty list and a path on every handle scanned |
| Handle.LoadedScenesMembers | src/ui/editor/handle.rs:24-30 | a handle is collected exactly when it is a scene of a loaded asset of the folder |
| Handle.LoadModelsEarly | src/ui/editor/handle.rs:19-31 | the loop yields the scene lists of the loaded assets concatenated in folder order |
| Cursor.CursorDelta.constructor | src/cursor.rs:17-21 | both vectors start at zero |
| Cursor.CursorDelta.TrackCursor | src/cursor.rs:32-38 | the previous position becomes the cursor's, or stays without one. The delta is old previous minus new, so it is zero without a cursor |
| Ecs.World.Subtree | src/constraints/add_constraints.rs:64 | the subtree of the live store, SubtreeOf |
| Ecs.SubtreeOf | src/constraints/add_constraints.rs:64 | a set of live entities holding a live root, closed under Parent links to an older parent, each non-root member hanging from the root or another member |
| Ecs.ChainReaches | src/constraints/add_constraints.rs:64 | when every parent is older than its child, a chain of Parent links reaches its last entity |
| Ecs.SubtreeComplete | src/constraints/add_constraints.rs:64 | when every parent is older than its child, every live entity with a Parent chain to the root is in the root's subtree |
| Ecs.SubtreesOf | src/ui/editor/part_selector.rs:153-155 | the union of the roots' subtrees: it holds each, and every member is in one |
| Ecs.ReachesAfterDespawn | src/ui/editor/part_selector.rs:153-155 | an entity that survives despawning some subtrees reaches a root after the despawn exactly when it did before |
| Ecs.DespawnStep | src/ui/editor/part_selector.rs:153-155 | despawning one more root's subtree from what is left is despawning the union of all the subtrees at once |
| Ecs.PlacingIn | src/ui/editor/part_selector.rs:135 | exactly the live entities that carry CurrentlyPlacing |
| Ecs.WithoutPreviewsEffect | src/ui/editor/part_selector.rs:153-155 | despawning the previews' subtrees keeps a sub-store with no preview left; an entity survives exactly when it is in no preview's subtree |
| Ecs.WithoutPreviewsIdempotent | src/ui/editor/part_selector.rs:153-155 | despawning the previews a second time changes nothing |
| Ecs.World.Previews | src/ui/editor/part_selector.rs:135 | the live entities carrying CurrentlyPlacing |
| Ecs.World.Spawn | src/constraints/add_constraints.rs:44-60 | a new entity, not alive before, at the allocator position with generation 0, added with the given components; the allocator moves on by one and nothing else changes |
| Ecs.World.DespawnRecursive | src/move_objects/mod.rs:267 | exactly the root's subtree disappears; every other entity keeps its components and the allocator stays |
| Ecs.World.DespawnAllRecursive | src/ui/editor/part_selector.rs:153-155 | exactly the union of the roots' subtrees disappears, every root included; every other entity keeps its components |
| Ecs.StateMachine.Apply | src/constraints/mod.rs:29-30 | a pending request for another state exits the old and enters the new one; otherwise nothing changes, and the request is consumed |

## Left out

- Undo: no modelled file implements it, and nothing removes entries from the action log.
- The placing systems are not part of this model. That covers the code that appends `Placed`, fills `PlacedList` and sets `PartName`. `PlacingState`, `PlacedPart` and `PlacingEvent` are rebuilt from their uses, and src/placing.rs belongs to an older, incompatible revision.
- The superseded revisions src/move_objects.rs, src/constraints.rs, src/saving.rs and src/ui/editor/parts.rs are not modelled.
- Cameras and their orbit and zoom maths are out of scope.
- The egui gizmo body of `update` is out of scope. `MoveObjects.UpdateGizmoTarget` gets the gizmo's result as an input and models only the guards and the write-back.
- MoveObjectsUi.GizmoOptions.constructor: of the options `setup` inserts, only the gizmo mode and precision snapping are modelled; orientation, snap angle and distance, the last result and the visuals are drawing parameters no modelled system reads. The snap flag is a parameter because `setup` reads `settings.precision_snap`, a field the `Settings` struct of src/settings.rs:9-14 does not declare.
- MoveObjects.UpdateGizmoTarget: its requires, one Transform on every marked entity and at most one such entity, is where the code's `single_mut().unwrap()` would panic (src/move_objects/mod.rs:134 and 149).
- The pure UI and window plumbing is out of scope: node styles, fonts, the window drag of the constraint UI and the grid toggle.
- Materials are modelled only as the colour a marker's material gets.
- Rendering and ray casting are left out. A ray cast is an input list of hit entities, nearest first, with a flag for whether a cursor ray exists.
- Screenshots and every file I/O are left out: `write_changes`, `load_or_create_settings_file`, the diagnostic `println`s, the chrono timestamp in `save_event` and the Ctrl+S chord.
- Clocks and timers are parameters: `SystemTime::now()` is the `now` argument, times are whole nanoseconds, and the tick of the save-count timer is a `finished` input.
- f32 rounding is left out: vectors and quaternions are exact reals.
- AddConstraints.QuarterTurnZ stands for `Quat::from_rotation_z(PI / 2.0)` without components; only its identity across table rows is used.
- Bevy's command deferral, system order and event queues are left out. Each system is one atomic step, and an event reader is the sequence of this frame's events. `Constraints.ModeFrame` fixes one order, `check_for_c` before `exit_constrain`, which the app does not fix.
- Children components are not modelled, only `Parent`. `despawn_recursive` follows `Parent` links (`Ecs.World.Subtree`).
- Ecs.World.Subtree: it follows only Parent links from a child to an older parent (lower index). Every parent link the core makes is of this kind (markers spawned after their part, then attached with `push_children`), but the world does not carry that as an invariant; `Ecs.SubtreeComplete` gives completeness for stores where it holds.
- Ecs.World.Spawn: the allocator never reuses an index. Bevy reuses a despawned entity's index with a higher generation, so the model's handles differ from the engine's after a despawn; the core only compares them, and `HandleConstraints.SameIndexStops` covers the one place that compares indices alone.
- HandleConstraints.HandleConstraintEvent: the events after a self-pairing stay unread until the next run, which the method returns; that Bevy drops events after two frames is not modelled.
- Constraints.PickerFrame: the app does not order `handle_constraint_event` and `select_constraints` within a frame; the model runs the aligner first.
- The single window, camera and parts-list panel are taken as given: the `get_single`/`unwrap` calls on them are not modelled.
- MoveObjects.SelectObject: the run condition `not(in_state(PlacingState::Placing))` is not modelled.
- MoveObjects.UnselectObject and MoveObjects.DeleteObject: the run condition `in_state(MoveObjectsState::Moving)` is not modelled (`MoveObjectsUi.GizmoOptions.ChangeGizmoMode`, the third system under it, takes the state and does nothing outside Moving). Nor is the `UIState::Editor` condition of the editor UI systems.
- Actions.Action: `Deleted` has three fields (entity, name, transform) as src/move_objects/mod.rs:262 builds it. src/actions.rs:12 declares two.
- HandleConstraints.ConstrainTo: the rotation is stated structurally (the self-alignment lemma), not as an angle; that the product of unit rotations is again a unit rotation (the multiplicative norm) is not proved, because that nonlinear identity is too costly for the solver here.
- Save.SavedJustNow requires a save time other than the epoch: a save at the epoch reads as never saved.
- `current_delta_as_percentage` in src/cursor.rs is left out: float division by the window size.
- The hover and leave colours of the part selector are kept as hex strings.
