# Behaviour-set editor: selection engine model

A Dafny model of the selection engine inside Curvature's behaviour-set editor
widget (`Widgets/EditWidgetBehaviorSet.cs`). The widget lists the project's
behaviours with "enabled" check boxes. It builds one input control per input
axis that the checked behaviours' considerations read. It acts as the input
broker those considerations query. It scores every checked behaviour and
names a winner. A refresh timer coalesces bursts of enable/disable toggles
into a single rebuild.

Files, one module each:

- `wrappers.dfy` (`Wrappers`): `Option` stands for a null reference and `Result` for a thrown exception.
- `entities.dfy` (`Entities`): input axes, considerations, behaviours and input controls as values. `Collaborators` bundles the foreign code the editor calls (`Clamp`, `Union`, `Score`, a new control's initial reading).
- `input_scoring.dfy` (`InputScoring`): the value the broker reports for a consideration (`GetInputValue`).
- `winner_selection.dfy` (`WinnerSelection`): what the winner scan must produce.
- `input_domains.dfy` (`InputDomains`): grouping considerations by axis and folding `Union`.
- `coalescing.dfy` (`Coalescing`): the refresh timer as a one-bit state machine.
- `behavior_set_editor.dfy` (`BehaviorSetEditor`): the widget as a class. Its fields are the list box, the input panel, the score rows, the winner label and the timer flag. Its methods are the source's members, and their contracts tie them to the modules above.

Two details of the code the model keeps:

- `ScoreOnMatch` belongs to the axis's first parameter (`Input.Parameters[0]`), not to the consideration.
- The code does not skip a null clamped view. It appends every view (EditWidgetBehaviorSet.cs:175-176) and calls `Union` on it (:184), so a null view would throw. The model takes `Clamp` to return a view (see Left out).

## Model

| member | source | states |
|---|---|---|
| InputScoring.CategoricalScore | Widgets/EditWidgetBehaviorSet.cs:93-106 | an enumeration score is 0.0 or 1.0, and it is 1.0 exactly when the match outcome agrees with the ScoreOnMatch mode |
| InputScoring.ReadControl | Widgets/EditWidgetBehaviorSet.cs:87-109 | a missing knowledge-base record raises a null reference; a non-enumeration axis passes the control's raw value through unchanged; a successful enumeration read is 0.0 or 1.0 |
| InputScoring.FirstControlOn | Widgets/EditWidgetBehaviorSet.cs:83-85 | the search finds the first control tagged with the consideration's axis (same axis identity): that control is tagged with it, no earlier control is, and the result is the panel length when none is |
| InputScoring.NoControlScoresZero | Widgets/EditWidgetBehaviorSet.cs:113 | with no control tagged with the consideration's axis (including an unset axis) the value is 0.0 |
| InputScoring.FirstTaggedControlDecides | Widgets/EditWidgetBehaviorSet.cs:83-110 | the first tagged control decides the value, and later tagged controls are ignored |
| InputScoring.ScoreOnMatch | Widgets/EditWidgetBehaviorSet.cs:87-99 | in match mode an enumeration consideration scores 1.0 when its key compares equal, ignoring case, to the control's text, and 0.0 otherwise |
| InputScoring.MismatchIsComplement | Widgets/EditWidgetBehaviorSet.cs:100-106 | for the same key and control, mismatch mode scores 1.0 exactly when the texts differ; both modes give 0.0 or 1.0 and the two scores sum to 1.0 |
| BehaviorSetEditor.EditWidgetBehaviorSet.GetInputValue | Widgets/EditWidgetBehaviorSet.cs:81-114 | the loop with early return over the live panel returns exactly the first-match value `InputValue` of the panel |
| BehaviorSetEditor.EditWidgetBehaviorSet.GetInputValueInContext | Widgets/EditWidgetBehaviorSet.cs:116-122 | with no context it delegates to the context-free lookup; with any context it fails with "not implemented" |
| WinnerSelection.WinnerAtUnique | Widgets/EditWidgetBehaviorSet.cs:126-137 | under the strict-greater rule at most one index wins |
| WinnerSelection.TieKeepsEarlier | Widgets/EditWidgetBehaviorSet.cs:133-137 | of two behaviours with equal scores, the later one never wins |
| WinnerSelection.WinnerExists | Widgets/EditWidgetBehaviorSet.cs:126-137 | when some behaviour scores above 0.0 there is a winner: the earliest behaviour with the maximum score |
| WinnerSelection.WinnerDetermined | Widgets/EditWidgetBehaviorSet.cs:146-153 | the winner label is determined by the scores; it shows a winner exactly when some behaviour scores above 0.0 |
| BehaviorSetEditor.EditWidgetBehaviorSet.RefreshInputs | Widgets/EditWidgetBehaviorSet.cs:124-154 | the rows are replaced by one row per checked behaviour, in list order, with its score; the label is empty when every score is at most 0.0 (the list may be empty), otherwise it shows the earliest behaviour with the maximum score, together with that positive score |
| BehaviorSetEditor.CheckedBehaviorsMembers | Widgets/EditWidgetBehaviorSet.cs:165 | a behaviour is among the checked items exactly when some checked list entry shows it |
| InputDomains.ConsiderationsOfMembers | Widgets/EditWidgetBehaviorSet.cs:165-167 | grouping visits exactly the considerations of the checked behaviours |
| InputDomains.OnMembers | Widgets/EditWidgetBehaviorSet.cs:169-176 | the list of an axis holds exactly the considerations that read that axis and have an axis and a knowledge-base record |
| InputDomains.GroupByAxis | Widgets/EditWidgetBehaviorSet.cs:163-178 | an axis is a dictionary key exactly when some contributing consideration reads it; its list holds one clamped view per such consideration, in visiting order |
| InputDomains.UnionAll | Widgets/EditWidgetBehaviorSet.cs:182-184 | the loop computes the left fold of `Union` over the list, starting from null, with each view as the receiver |
| InputDomains.BuildPanel | Widgets/EditWidgetBehaviorSet.cs:180-194 | one control for each key whose fold is not null, tagged with that key and built for the fold's result; no key gets two controls; the order is unspecified |
| InputDomains.DomainNeedsContributor | Widgets/EditWidgetBehaviorSet.cs:169-187 | an axis gets a non-null domain only when a contributing consideration of a checked behaviour reads it |
| BehaviorSetEditor.EditWidgetBehaviorSet.RefreshInputControls | Widgets/EditWidgetBehaviorSet.cs:156-197 | the panel is replaced by exactly one control per axis whose union over the checked behaviours' clamped views is not null; the rows and winner are then recomputed against the new panel; one rebuild is counted |
| BehaviorSetEditor.EditWidgetBehaviorSet.OnItemCheck | Widgets/EditWidgetBehaviorSet.cs:30-48 | the handler arms the timer. With a set attached, the behaviour is enabled exactly when the new state is Checked, no other behaviour's membership changes, and the project is marked dirty exactly once if membership changed and not at all otherwise. With no set attached, only the timer flag changes |
| BehaviorSetEditor.EditWidgetBehaviorSet.SetItemChecked | Widgets/EditWidgetBehaviorSet.cs:30-48 | setting an entry to a new check state runs the handler and then commits the state of that entry only: the behaviour is enabled exactly when the new state is Checked, no other membership changes, the project is marked dirty exactly when membership changed, and the timer is armed without a rebuild. Setting the state an entry already has changes nothing. The project's behaviour list is never changed, and "checked iff enabled" is kept when entries show distinct behaviours |
| BehaviorSetEditor.EditWidgetBehaviorSet.OnRefreshTimerTick | Widgets/EditWidgetBehaviorSet.cs:199-203 | a tick performs one rebuild of the panel and the scores, then disarms the timer |
| BehaviorSetEditor.EditWidgetBehaviorSet.TimerElapsed | Widgets/EditWidgetBehaviorSet.cs:199-203 | the timer ticks only while armed, so an elapse follows the coalescing state machine `Step`; when armed, the panel, score rows and winner are rebuilt as by a tick, and when idle they are left as they were |
| BehaviorSetEditor.EditWidgetBehaviorSet.Attach | Widgets/EditWidgetBehaviorSet.cs:60-79 | the list shows every project behaviour, in project order, checked exactly when it is enabled, so the checked items are the enabled project behaviours; then the panel is rebuilt once |
| Coalescing.TogglesOnlyArm | Widgets/EditWidgetBehaviorSet.cs:32 | any number of toggles only arm the timer and never rebuild |
| Coalescing.BurstCoalesces | Widgets/EditWidgetBehaviorSet.cs:199-203 | any burst of toggles followed by the timer elapsing causes exactly one rebuild and leaves the timer idle |
| Coalescing.IdleStaysIdle | Widgets/EditWidgetBehaviorSet.cs:199-203 | once idle, further elapses cause no rebuild |
| BehaviorSetEditor.TogglesCoalesce | Widgets/EditWidgetBehaviorSet.cs:30-32 | three clicks, each flipping an entry's check state, followed by two elapses of the timer rebuild the panel exactly once, through the widget's own methods |

## Left out

- Event plumbing is not modelled: the `DialogRebuildNeeded` and `AutoNavigationRequested` events, the subscription switch in `Attach`, `Rebuild`, and double-click navigation. These are observer callbacks with no logic beyond a null check.
- `NameEditWidget.Attach` is not modelled. It is a separate widget.
- Control disposal, list-view text formatting (`f3`) and label text are not modelled. The label is modelled as the winner and its score, or as nothing.
- The bodies of `InputAxis.Clamp`, `InputAxis.Union`, `Behavior.Score`, `Project.MarkDirty` and the input control's constructor are not modelled. They are function parameters (`Collaborators`), and `MarkDirty` is counted in `dirtyMarks`. No algebraic law of `Union` and no aggregation or weight law of `Score` is assumed.
- `Clamp` is taken to return a view. A null clamped view would make `Union` throw inside the fold, and that error path is not modelled.
- Culture-aware case-insensitive comparison is not modelled. It is the `sameText` parameter, which is true when `string.Compare` returns 0.
- Axes and behaviours are modelled as immutable values. The broker matches a control to a consideration by axis identity and reads the consideration's own axis, as the code does. Grouping by axis and enabled-set membership compare whole values, so editing an axis's parameters or a behaviour's considerations while the widget shows them is not modelled.
- `Score` calls back into the broker. It is modelled as a function of the behaviour and the current input panel, and that call is not otherwise connected to `GetInputValue`.
- The timer's real-time delay is not modelled, and neither is whether enabling an enabled timer restarts it. Only the `Enabled` flag is kept.
- `double` scores are modelled as `real`, without rounding or NaN.
- The enumeration order of `Dictionary` is left unspecified: controls are created in an arbitrary axis order.
- `EnabledBehaviors` is modelled as a set of behaviours.
- Whether the list box raises `ItemCheck` while `Attach` adds items that are already checked is WinForms behaviour and is not modelled: `Attach` leaves the timer flag as it was.
- `GetInputValueInContext` with a non-null context is modelled only as the "not implemented" failure.
