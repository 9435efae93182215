/** The weekly topic configuration: the category chosen for this week, the one saved last week,
    an unsaved-changes flag, and a save that completes after a one-second wait.

    Two effects keep the fields in step: when `previousCategory` changes, the selection is reset to
    it; when either category changes, `hasChanges` is recomputed as "they differ". Each event below
    applies the handler's (batched) updates and then lets these effects run until nothing changes. */
module WeeklyCategories {

  import opened Wrappers

  const CategoryOptions: seq<string> := [
    "Technology", "Business", "Politics", "Sports", "Health",
    "Science", "Finance", "Entertainment", "World News", "Environment"
  ]

  const InitialPrevious: string := "Technology"
  const NoSelectionMessage: string := "Please select a category before saving"
  const SavedMessage: string := "Category configuration updated successfully"

  /** The four state fields of the component. */
  datatype Config = Config(selected: string, previous: string, hasChanges: bool, isSaving: bool)

  /** The flag says what the page promises: there are unsaved changes exactly when the selection
      differs from the saved category. */
  predicate Consistent(c: Config) {
    c.hasChanges == (c.selected != c.previous)
  }

  /** The effects after a render that moved the state from `before` to `after`: a new `previous`
      resets the selection (and so clears the flag); otherwise a new selection recomputes the flag;
      otherwise no effect runs. */
  function Settle(before: Config, after: Config): (r: Config)
    ensures r.previous == after.previous && r.isSaving == after.isSaving
    ensures after.previous != before.previous ==> r.selected == after.previous && !r.hasChanges
    ensures after.previous == before.previous && after.selected != before.selected ==>
      r.selected == after.selected && r.hasChanges == (after.selected != after.previous)
    ensures after.previous == before.previous && after.selected == before.selected ==> r == after
  {
    if after.previous != before.previous then after.(selected := after.previous, hasChanges := false)
    else if after.selected != before.selected then after.(hasChanges := after.selected != after.previous)
    else after
  }

  /** The state once the mount effects have run: the selection starts out as last week's category. */
  const Mounted: Config := Settle(Config("", "", false, false), Config("", InitialPrevious, false, false))

  lemma MountedState()
    ensures Mounted == Config(InitialPrevious, InitialPrevious, false, false)
    ensures Consistent(Mounted)
  {
  }

  /** `handleCategoryChange(value)`. */
  function ChangeSelection(c: Config, value: string): Config {
    Settle(c, c.(selected := value))
  }

  /** The save button is disabled without a selection or while saving. */
  predicate SaveDisabled(c: Config) {
    c.selected == "" || c.isSaving
  }

  /** The completion of a save, as written: the captured selection becomes `previous`, the flag is
      cleared and saving ends. */
  function SaveCompletedAsWritten(c: Config, captured: string): Config {
    Settle(c, c.(previous := captured, hasChanges := false, isSaving := false))
  }

  /** When the selection changes during the wait of a save that saves the category already saved,
      no effect runs afterwards, and the cleared flag hides the unsaved change. */
  lemma AsWrittenLosesChangeFlag()
    ensures var during := ChangeSelection(Config("Technology", "Technology", false, true), "Business");
      Consistent(during)
      && SaveCompletedAsWritten(during, "Technology") == Config("Business", "Technology", false, false)
      && !Consistent(SaveCompletedAsWritten(during, "Technology"))
  {
  }

  /** The completion of a save with the flag computed from the current selection, which is what the
      flag is meant to say. */
  function SaveCompleted(c: Config, captured: string): Config {
    Settle(c, c.(previous := captured, hasChanges := c.selected != captured, isSaving := false))
  }

  /** Every event keeps the flag consistent. */
  lemma ChangeSelectionKeepsConsistent(c: Config, value: string)
    requires Consistent(c)
    ensures Consistent(ChangeSelection(c, value))
  {
  }

  lemma SaveCompletedKeepsConsistent(c: Config, captured: string)
    requires Consistent(c)
    ensures Consistent(SaveCompleted(c, captured))
    ensures !SaveCompleted(c, captured).isSaving && SaveCompleted(c, captured).previous == captured
  {
  }

  /** The two completions differ only on the input of `AsWrittenLosesChangeFlag`: a save of the
      category already saved, completing after the selection moved away from it. */
  lemma AsWrittenAgreesOtherwise(c: Config, captured: string)
    ensures SaveCompletedAsWritten(c, captured) == SaveCompleted(c, captured)
      <==> captured != c.previous || c.selected == captured
  {
  }

  /** A save that completes without a change in between leaves nothing unsaved, as written and
      corrected alike. */
  lemma SaveWithoutInterruption(c: Config)
    ensures SaveCompletedAsWritten(c, c.selected) == c.(previous := c.selected, hasChanges := false, isSaving := false)
    ensures SaveCompleted(c, c.selected) == c.(previous := c.selected, hasChanges := false, isSaving := false)
  {
  }

  /** A selection made during the wait is replaced by the saved one when the save changes
      `previous`, as written and corrected alike. */
  lemma SaveResetsLaterSelection(c: Config, captured: string)
    requires captured != c.previous
    ensures SaveCompletedAsWritten(c, captured).selected == captured && !SaveCompletedAsWritten(c, captured).hasChanges
    ensures SaveCompleted(c, captured).selected == captured && !SaveCompleted(c, captured).hasChanges
  {
  }

  /** The component's state. `pending` holds the selection each unfinished save captured, oldest
      first; `saved` is every category handed to `onSave`. */
  class WeeklyConfig {
    var selected: string
    var previous: string
    var hasChanges: bool
    var isSaving: bool
    var pending: seq<string>
    var saved: seq<string>
    const hasListener: bool

    function Current(): Config
      reads this
    {
      Config(selected, previous, hasChanges, isSaving)
    }

    /** Mounting: the effects copy last week's category into the selection. */
    constructor (hasListener: bool)
      ensures Current() == Mounted && Consistent(Current())
      ensures pending == [] && saved == [] && this.hasListener == hasListener
    {
      selected := InitialPrevious;
      previous := InitialPrevious;
      hasChanges := false;
      isSaving := false;
      pending := [];
      saved := [];
      this.hasListener := hasListener;
      MountedState();
    }

    method HandleCategoryChange(value: string)
      modifies this
      ensures Current() == ChangeSelection(old(Current()), value)
      ensures selected == value
      ensures Consistent(old(Current())) ==> Consistent(Current())
      ensures pending == old(pending) && saved == old(saved)
    {
      var before := Current();
      selected := value;
      if selected != before.selected {
        hasChanges := selected != previous;
      }
      if Consistent(before) {
        ChangeSelectionKeepsConsistent(before, value);
      }
    }

    /** `handleSave` up to the wait: without a selection only the error toast; otherwise saving
        starts and the selection is captured. */
    method HandleSave() returns (toast: Option<string>)
      modifies this
      ensures old(selected) == "" ==> Current() == old(Current()) && pending == old(pending) && toast == Some(NoSelectionMessage)
      ensures old(selected) != "" ==>
        Current() == old(Current()).(isSaving := true) && pending == old(pending) + [old(selected)] && toast == None
      ensures saved == old(saved)
      ensures Consistent(old(Current())) ==> Consistent(Current())
    {
      if selected == "" {
        return Some(NoSelectionMessage);
      }
      isSaving := true;
      pending := pending + [selected];
      return None;
    }

    /** The oldest save's wait is over: its captured selection is saved and reported. The flag is
        computed by the corrected completion; it agrees with the completion as written except on
        the input of `AsWrittenLosesChangeFlag`. */
    method FinishSave() returns (toast: Option<string>)
      modifies this
      ensures old(pending) == [] ==> Current() == old(Current()) && pending == [] && saved == old(saved) && toast == None
      ensures old(pending) != [] ==>
        Current() == SaveCompleted(old(Current()), old(pending)[0]) && pending == old(pending)[1..]
        && saved == old(saved) + (if hasListener then [old(pending)[0]] else []) && toast == Some(SavedMessage)
      ensures old(pending) != [] && (old(pending)[0] != old(previous) || old(selected) == old(pending)[0]) ==>
        Current() == SaveCompletedAsWritten(old(Current()), old(pending)[0])
      ensures Consistent(old(Current())) ==> Consistent(Current())
    {
      if pending == [] {
        return None;
      }
      var before := Current();
      var captured := pending[0];
      pending := pending[1..];
      previous := captured;
      hasChanges := before.selected != captured;
      isSaving := false;
      if previous != before.previous {
        selected := previous;
        hasChanges := false;
      }
      if hasListener {
        saved := saved + [captured];
      }
      if Consistent(before) {
        SaveCompletedKeepsConsistent(before, captured);
      }
      AsWrittenAgreesOtherwise(before, captured);
      return Some(SavedMessage);
    }
  }
}
