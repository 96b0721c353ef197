/**
 * The behaviour-set editor widget: the list of project behaviours with their
 * enabled check boxes, the input panel built from the checked behaviours'
 * considerations, the score rows with the winner label, and the refresh timer
 * that coalesces toggles into one rebuild.
 */
module BehaviorSetEditor {
  import opened Wrappers
  import opened Entities
  import opened InputScoring
  import opened WinnerSelection
  import opened InputDomains
  import opened Coalescing

  /** An entry of the enabled-behaviours list box. */
  datatype ListItem = ListItem(behavior: Behavior, checked: bool)

  /** The list box's `CheckedItems`: the checked behaviours in list order. */
  function CheckedBehaviors(items: seq<ListItem>): seq<Behavior>
  {
    if items == [] then []
    else (if items[0].checked then [items[0].behavior] else []) + CheckedBehaviors(items[1..])
  }

  /** A behaviour is among the checked items exactly when some checked entry shows it. */
  lemma {:induction false} CheckedBehaviorsMembers(items: seq<ListItem>, b: Behavior)
    ensures b in CheckedBehaviors(items) <==> exists i :: 0 <= i < |items| && items[i] == ListItem(b, true)
  {
    if items != [] {
      CheckedBehaviorsMembers(items[1..], b);
      if b in CheckedBehaviors(items[1..]) {
        var i :| 0 <= i < |items[1..]| && items[1..][i] == ListItem(b, true);
        assert items[i + 1] == ListItem(b, true);
      }
    }
  }

  /** Entries show pairwise different behaviours. */
  ghost predicate DistinctBehaviors(items: seq<ListItem>)
  {
    forall i, j :: 0 <= i < j < |items| ==> items[i].behavior != items[j].behavior
  }

  /** The scores every behaviour gets while the input panel shows `controls`. */
  function ScoresAgainst(ext: Collaborators, controls: seq<InputControl>): Behavior -> real
  {
    b => ext.score(b, controls)
  }

  /** A behaviour set: which behaviours are enabled. */
  class BehaviorSet {
    var enabledBehaviors: set<Behavior>

    constructor (enabled: set<Behavior>)
      ensures enabledBehaviors == enabled
    {
      enabledBehaviors := enabled;
    }
  }

  /** A project: its behaviours in order, and how often it was marked dirty. */
  class Project {
    var behaviors: seq<Behavior>
    var dirtyMarks: nat

    constructor (behaviors: seq<Behavior>)
      ensures this.behaviors == behaviors && dirtyMarks == 0
    {
      this.behaviors := behaviors;
      dirtyMarks := 0;
    }

    method MarkDirty()
      modifies this`dirtyMarks
      ensures dirtyMarks == old(dirtyMarks) + 1
    {
      dirtyMarks := dirtyMarks + 1;
    }
  }

  class EditWidgetBehaviorSet {
    var editingSet: BehaviorSet?
    var editingProject: Project?
    /** `EnabledBehaviorsListBox` */
    var listBox: seq<ListItem>
    /** `InputFlowPanel.Controls` */
    var inputControls: seq<InputControl>
    /** `BehaviorScoresListView.Items` */
    var scoreRows: seq<ScoreRow>
    /** `WinningBehaviorLabel`: empty, or the winner with its score */
    var winnerLabel: Option<ScoreRow>
    /** `RefreshTimer.Enabled` */
    var refreshTimerEnabled: bool
    /** How many times the input panel was rebuilt. */
    ghost var rebuilds: nat

    ghost predicate Valid()
      reads this
    {
      && (editingSet == null <==> editingProject == null)
      && (editingSet == null ==> listBox == [])
    }

    /** Every list entry is checked exactly when its behaviour is enabled. */
    ghost predicate Synced()
      reads this, editingSet
    {
      editingSet != null ==>
        forall i :: 0 <= i < |listBox| ==> (listBox[i].checked <==> listBox[i].behavior in editingSet.enabledBehaviors)
    }

    ghost function Timer(): TimerState
      reads this
    {
      TimerState(refreshTimerEnabled, rebuilds)
    }

    constructor ()
      ensures Valid() && editingSet == null && listBox == [] && inputControls == []
      ensures scoreRows == [] && winnerLabel == None && Timer() == TimerState(false, 0)
    {
      editingSet, editingProject := null, null;
      listBox, inputControls, scoreRows := [], [], [];
      winnerLabel := None;
      refreshTimerEnabled := false;
      rebuilds := 0;
    }

    /** The broker's value for `c`, read from the live input panel. */
    method GetInputValue(c: Consideration, sameText: (string, string) -> bool) returns (r: Result<real, Fault>)
      ensures r == InputValue(inputControls, c, sameText)
    {
      for i := 0 to |inputControls|
        invariant forall j :: 0 <= j < i ==> !TaggedWith(inputControls[j], c.input)
      {
        var input := inputControls[i];
        if TaggedWith(input, c.input) {
          return ReadControl(c.input.value, c.parameterValues, input, sameText);
        }
      }
      return Success(0.0);
    }

    /** The context overload: only an absent context is supported. */
    method GetInputValueInContext(c: Consideration, context: Option<ScenarioContext>, sameText: (string, string) -> bool)
      returns (r: Result<real, Fault>)
      ensures context.None? ==> r == InputValue(inputControls, c, sameText)
      ensures context.Some? ==> r == Failure(NotImplemented)
    {
      if context == None {
        r := GetInputValue(c, sameText);
        return;
      }
      r := Failure(NotImplemented);
    }

    /** The list box's `ItemCheck` handler, run before entry `index` takes `newValue`. */
    method OnItemCheck(index: nat, newValue: bool)
      requires Valid()
      requires editingSet != null ==> index < |listBox|
      modifies this`refreshTimerEnabled, editingSet, editingProject
      ensures Valid() && refreshTimerEnabled
      ensures editingSet != null ==>
        var b := listBox[index].behavior;
        && (b in editingSet.enabledBehaviors <==> newValue)
        && (forall x :: x != b ==> (x in editingSet.enabledBehaviors <==> x in old(editingSet.enabledBehaviors)))
        && editingProject.behaviors == old(editingProject.behaviors)
        && editingProject.dirtyMarks
           == old(editingProject.dirtyMarks) + if (b in old(editingSet.enabledBehaviors)) != newValue then 1 else 0
    {
      refreshTimerEnabled := true;
      if editingSet != null {
        var behavior := listBox[index].behavior;
        var enabled := behavior in editingSet.enabledBehaviors;
        var makeEnabled := newValue;
        if makeEnabled {
          editingSet.enabledBehaviors := editingSet.enabledBehaviors + {behavior};
        } else {
          editingSet.enabledBehaviors := editingSet.enabledBehaviors - {behavior};
        }
        if enabled != makeEnabled {
          editingProject.MarkDirty();
        }
      }
    }

    /**
     * The user sets entry `index` to `newValue`. When that changes the entry's
     * state, the list box raises `ItemCheck` and then commits the new state;
     * setting the state an entry already has raises nothing.
     */
    method SetItemChecked(index: nat, newValue: bool)
      requires Valid() && index < |listBox|
      modifies this`refreshTimerEnabled, this`listBox, editingSet, editingProject
      ensures Valid()
      ensures listBox == old(listBox)[index := ListItem(old(listBox)[index].behavior, newValue)]
      ensures editingProject.behaviors == old(editingProject.behaviors)
      ensures old(listBox)[index].checked == newValue ==>
        && Timer() == old(Timer())
        && editingSet.enabledBehaviors == old(editingSet.enabledBehaviors)
        && editingProject.dirtyMarks == old(editingProject.dirtyMarks)
      ensures old(listBox)[index].checked != newValue ==>
        var b := listBox[index].behavior;
        && Timer() == Step(old(Timer()), Toggle)
        && (b in editingSet.enabledBehaviors <==> newValue)
        && (forall x :: x != b ==> (x in editingSet.enabledBehaviors <==> x in old(editingSet.enabledBehaviors)))
        && editingProject.dirtyMarks
           == old(editingProject.dirtyMarks) + if (b in old(editingSet.enabledBehaviors)) != newValue then 1 else 0
      ensures old(Synced()) && DistinctBehaviors(listBox) ==> Synced()
    {
      if listBox[index].checked != newValue {
        OnItemCheck(index, newValue);
        listBox := listBox[index := ListItem(listBox[index].behavior, newValue)];
      }
    }

    /** Recomputes the score rows and the winner over the checked behaviours. */
    method RefreshInputs(ext: Collaborators)
      modifies this`scoreRows, this`winnerLabel
      ensures RowsFor(CheckedBehaviors(listBox), ScoresAgainst(ext, inputControls), scoreRows)
      ensures IsWinner(CheckedBehaviors(listBox), ScoresAgainst(ext, inputControls), winnerLabel)
    {
      var score := ScoresAgainst(ext, inputControls);
      var checked := CheckedBehaviors(listBox);
      var winScore := 0.0;
      var winBehavior: Option<Behavior> := None;
      ghost var k := 0;
      var rows: seq<ScoreRow> := [];
      for i := 0 to |checked|
        invariant |rows| == i && forall j :: 0 <= j < i ==> rows[j] == ScoreRow(checked[j], score(checked[j]))
        invariant winBehavior.None? ==> winScore == 0.0 && forall j :: 0 <= j < i ==> score(checked[j]) <= 0.0
        invariant winBehavior.Some? ==>
          && k < i && winBehavior.value == checked[k] && winScore == score(checked[k]) && winScore > 0.0
          && (forall j :: 0 <= j < i ==> score(checked[j]) <= winScore)
          && (forall j :: 0 <= j < k ==> score(checked[j]) < winScore)
      {
        var b := checked[i];
        var finalScore := score(b);
        if finalScore > winScore {
          winScore := finalScore;
          winBehavior := Some(b);
          k := i;
        }
        rows := rows + [ScoreRow(b, finalScore)];
      }
      scoreRows := rows;
      if winBehavior.Some? {
        assert IsWinnerAt(checked, score, k);
        winnerLabel := Some(ScoreRow(winBehavior.value, winScore));
      } else {
        winnerLabel := None;
      }
    }

    /** Rebuilds the input panel from the checked behaviours' considerations, then rescores. */
    method RefreshInputControls(ext: Collaborators)
      modifies this`inputControls, this`scoreRows, this`winnerLabel, this`rebuilds
      ensures PanelFor(ConsiderationsOf(CheckedBehaviors(listBox)), ext, inputControls)
      ensures RowsFor(CheckedBehaviors(listBox), ScoresAgainst(ext, inputControls), scoreRows)
      ensures IsWinner(CheckedBehaviors(listBox), ScoresAgainst(ext, inputControls), winnerLabel)
      ensures rebuilds == old(rebuilds) + 1
    {
      ghost var cs := ConsiderationsOf(CheckedBehaviors(listBox));
      var inputs := GroupByAxis(CheckedBehaviors(listBox), ext.clamp);
      var controls := BuildPanel(inputs, ext);
      forall a | AxisDomain(cs, a, ext).Some?
        ensures a in inputs && FoldUnion(inputs[a], ext.union).Some?
      {
        DomainNeedsContributor(cs, a, ext);
      }
      inputControls := controls;
      rebuilds := rebuilds + 1;
      RefreshInputs(ext);
    }

    /** The refresh timer's `Tick` handler. */
    method OnRefreshTimerTick(ext: Collaborators)
      modifies this`inputControls, this`scoreRows, this`winnerLabel, this`rebuilds, this`refreshTimerEnabled
      ensures PanelFor(ConsiderationsOf(CheckedBehaviors(listBox)), ext, inputControls)
      ensures RowsFor(CheckedBehaviors(listBox), ScoresAgainst(ext, inputControls), scoreRows)
      ensures IsWinner(CheckedBehaviors(listBox), ScoresAgainst(ext, inputControls), winnerLabel)
      ensures Timer() == TimerState(false, old(rebuilds) + 1)
    {
      RefreshInputControls(ext);
      refreshTimerEnabled := false;
    }

    /** The refresh timer's interval elapses; it raises `Tick` only while enabled. */
    method TimerElapsed(ext: Collaborators)
      modifies this`inputControls, this`scoreRows, this`winnerLabel, this`rebuilds, this`refreshTimerEnabled
      ensures Timer() == Step(old(Timer()), Elapse)
      ensures old(refreshTimerEnabled) ==>
        && PanelFor(ConsiderationsOf(CheckedBehaviors(listBox)), ext, inputControls)
        && RowsFor(CheckedBehaviors(listBox), ScoresAgainst(ext, inputControls), scoreRows)
        && IsWinner(CheckedBehaviors(listBox), ScoresAgainst(ext, inputControls), winnerLabel)
      ensures !old(refreshTimerEnabled) ==>
        inputControls == old(inputControls) && scoreRows == old(scoreRows) && winnerLabel == old(winnerLabel)
    {
      if refreshTimerEnabled {
        OnRefreshTimerTick(ext);
      }
    }

    /** Shows `behaviorSet` of `project`: lists every project behaviour in project order,
        checked exactly when enabled, then rebuilds the input panel. */
    method Attach(behaviorSet: BehaviorSet, project: Project, ext: Collaborators)
      modifies this
      ensures Valid() && Synced()
      ensures editingSet == behaviorSet && editingProject == project
      ensures |listBox| == |project.behaviors|
      ensures forall i :: 0 <= i < |listBox| ==>
        listBox[i] == ListItem(project.behaviors[i], project.behaviors[i] in behaviorSet.enabledBehaviors)
      ensures forall b :: b in CheckedBehaviors(listBox) <==> b in project.behaviors && b in behaviorSet.enabledBehaviors
      ensures PanelFor(ConsiderationsOf(CheckedBehaviors(listBox)), ext, inputControls)
      ensures RowsFor(CheckedBehaviors(listBox), ScoresAgainst(ext, inputControls), scoreRows)
      ensures IsWinner(CheckedBehaviors(listBox), ScoresAgainst(ext, inputControls), winnerLabel)
      ensures Timer() == TimerState(old(refreshTimerEnabled), old(rebuilds) + 1)
    {
      editingSet := behaviorSet;
      editingProject := project;
      listBox := [];
      var behaviors := project.behaviors;
      for i := 0 to |behaviors|
        invariant editingSet == behaviorSet && editingProject == project
        invariant refreshTimerEnabled == old(refreshTimerEnabled) && rebuilds == old(rebuilds)
        invariant |listBox| == i
        invariant forall j :: 0 <= j < i ==> listBox[j] == ListItem(behaviors[j], behaviors[j] in behaviorSet.enabledBehaviors)
      {
        listBox := listBox + [ListItem(behaviors[i], behaviors[i] in behaviorSet.enabledBehaviors)];
      }
      forall b ensures b in CheckedBehaviors(listBox) <==> b in behaviors && b in behaviorSet.enabledBehaviors {
        CheckedBehaviorsMembers(listBox, b);
      }
      RefreshInputControls(ext);
    }
  }

  /** Three clicks in a row, each flipping an entry, followed by the timer
      elapsing twice rebuild the panel once. */
  method TogglesCoalesce(w: EditWidgetBehaviorSet, ext: Collaborators, i: nat, j: nat, k: nat)
    requires w.Valid() && i < |w.listBox| && j < |w.listBox| && k < |w.listBox|
    modifies w, w.editingSet, w.editingProject
    ensures w.rebuilds == old(w.rebuilds) + 1 && !w.refreshTimerEnabled
  {
    w.SetItemChecked(i, !w.listBox[i].checked);
    w.SetItemChecked(j, !w.listBox[j].checked);
    w.SetItemChecked(k, !w.listBox[k].checked);
    w.TimerElapsed(ext);
    w.TimerElapsed(ext);
  }
}
