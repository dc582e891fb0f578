/** One row of the course tree (src/components/course/TreeItem.tsx): its
    open/closed state, keyboard handling, indent, badge and whether its
    children are shown. */
module TreeItem {
  import opened Wrappers
  import opened Text
  import opened CourseData

  /** `itemType`, `'slide'` when not given. */
  datatype ItemType = SubjectItem | ModuleItem | ChapterItem | SlideItem

  // ---------------------------------------------------------------------
  // Open/closed state
  // ---------------------------------------------------------------------

  /** The local `isOpen` a row starts with: subjects and modules (levels 0
      and 1) start open, deeper rows closed. */
  function InitiallyOpen(level: int): (r: bool)
    ensures r <==> level == 0 || level == 1 || level < 0
  {
    level <= 1
  }

  /** The open state shown: `forceExpanded` when it is given, the local
      state otherwise. */
  function EffectiveOpen(forceExpanded: Option<bool>, isOpen: bool): (r: bool)
    ensures forceExpanded == Some(true) ==> r
    ensures forceExpanded == Some(false) ==> !r
    ensures forceExpanded == None ==> r == isOpen
  {
    match forceExpanded
    case Some(forced) => forced
    case None => isOpen
  }

  /** The local state after a click on the icon: folders flip, other rows
      keep theirs. */
  function AfterToggle(isFolder: bool, isOpen: bool): (r: bool)
    ensures isFolder ==> r != isOpen
    ensures !isFolder ==> r == isOpen
  {
    if isFolder then !isOpen else isOpen
  }

  /** The local state after a key press: ArrowRight opens a closed folder,
      ArrowLeft closes an open one, and Enter and Space only select. */
  function AfterKey(isFolder: bool, isOpen: bool, key: string): (r: bool)
    ensures !isFolder ==> r == isOpen
    ensures r != isOpen <==>
      isFolder && ((key == "ArrowRight" && !isOpen) || (key == "ArrowLeft" && isOpen))
  {
    if key == "Enter" || key == " " then isOpen
    else if key == "ArrowRight" && isFolder && !isOpen then true
    else if key == "ArrowLeft" && isFolder && isOpen then false
    else isOpen
  }

  /** Whether a key press selects the row (`handleSelect`). */
  predicate KeySelects(key: string) {
    key == "Enter" || key == " "
  }

  /** The two ways a user changes the local state. */
  datatype TreeEvent = IconClick | KeyPress(key: string)

  function Step(isFolder: bool, isOpen: bool, e: TreeEvent): bool {
    match e
    case IconClick => AfterToggle(isFolder, isOpen)
    case KeyPress(key) => AfterKey(isFolder, isOpen, key)
  }

  /** The local state after a series of events. */
  function Run(isFolder: bool, isOpen: bool, events: seq<TreeEvent>): bool
    decreases |events|
  {
    if events == [] then isOpen else Run(isFolder, Step(isFolder, isOpen, events[0]), events[1..])
  }

  /** A row that is not a folder never opens or closes, whatever happens. */
  lemma {:induction false} NonFolderNeverChanges(isOpen: bool, events: seq<TreeEvent>)
    ensures Run(false, isOpen, events) == isOpen
    decreases |events|
  {
    if events != [] {
      NonFolderNeverChanges(Step(false, isOpen, events[0]), events[1..]);
    }
  }

  /** The arrow keys are idempotent on a folder and each undoes the other. */
  lemma ArrowKeys(isOpen: bool)
    ensures AfterKey(true, isOpen, "ArrowRight")
    ensures !AfterKey(true, isOpen, "ArrowLeft")
    ensures AfterKey(true, AfterKey(true, isOpen, "ArrowRight"), "ArrowLeft") == false
    ensures AfterKey(true, AfterKey(true, isOpen, "ArrowLeft"), "ArrowRight") == true
  {
  }

  /** Two clicks on a folder's icon restore its state. */
  lemma ToggleTwice(isFolder: bool, isOpen: bool)
    ensures Run(isFolder, isOpen, [IconClick, IconClick]) == isOpen
  {
    assert [IconClick, IconClick][1..] == [IconClick];
  }

  /** The row's local state (`useState(level <= 1)`) and the props it
      depends on. */
  class TreeItemState {
    const isFolder: bool
    const level: int
    var isOpen: bool

    constructor (isFolder: bool, level: int)
      ensures this.isFolder == isFolder && this.level == level
      ensures isOpen == InitiallyOpen(level)
    {
      this.isFolder := isFolder;
      this.level := level;
      isOpen := level <= 1;
    }

    /** `actualIsOpen`. */
    function ActualIsOpen(forceExpanded: Option<bool>): (r: bool)
      reads this
      ensures forceExpanded.None? ==> r == isOpen
      ensures forceExpanded.Some? ==> r == forceExpanded.value
    {
      EffectiveOpen(forceExpanded, isOpen)
    }

    /** `handleToggle`. */
    method HandleToggle()
      modifies this
      ensures isOpen == AfterToggle(isFolder, old(isOpen))
    {
      if isFolder {
        isOpen := !isOpen;
      }
    }

    /** The `onKeyDown` handler; `selected` says whether `onSelect` runs. */
    method KeyDown(key: string) returns (selected: bool)
      modifies this
      ensures selected <==> KeySelects(key)
      ensures isOpen == AfterKey(isFolder, old(isOpen), key)
    {
      selected := false;
      if key == "Enter" || key == " " {
        selected := true;
      } else if key == "ArrowRight" && isFolder && !isOpen {
        isOpen := true;
      } else if key == "ArrowLeft" && isFolder && isOpen {
        isOpen := false;
      }
    }
  }

  // ---------------------------------------------------------------------
  // Layout and badge
  // ---------------------------------------------------------------------

  const BASE_INDENT: int := 16
  const INDENT_PER_LEVEL: int := 20

  /** `getIndentStyle`'s left padding in pixels: the row's level can be
      read back from it, and no row sits left of the top level's 16 pixels. */
  function IndentPx(level: int): (px: int)
    ensures (px - BASE_INDENT) % INDENT_PER_LEVEL == 0
    ensures (px - BASE_INDENT) / INDENT_PER_LEVEL == level
    ensures level >= 0 ==> px >= BASE_INDENT
  {
    BASE_INDENT + level * INDENT_PER_LEVEL
  }

  /** JavaScript truthiness of an optional number: absent and 0 are falsy. */
  predicate NonZero(n: Option<int>) {
    n.Some? && n.value != 0
  }

  const SLIDES_SUFFIX: string := " slides"

  /** `getBadgeText`: a slide shows its type upper-cased; a module with a
      slide count shows `completed/count`; a chapter with a slide count
      shows `count slides`; anything else shows none. */
  function BadgeText(slide: Option<CourseSlide>, itemType: ItemType, slideCount: Option<int>, completedSlides: int): (r: Option<string>)
    ensures r.Some? <==> slide.Some? || ((itemType.ModuleItem? || itemType.ChapterItem?) && NonZero(slideCount))
    ensures slide.Some? ==> r == Some(ToUpper(slide.value.kind))
  {
    if slide.Some? then Some(ToUpper(slide.value.kind))
    else if itemType == ModuleItem && NonZero(slideCount) then
      Some(IntToString(completedSlides) + "/" + IntToString(slideCount.value))
    else if itemType == ChapterItem && NonZero(slideCount) then
      Some(IntToString(slideCount.value) + SLIDES_SUFFIX)
    else None
  }

  /** A module's badge reads back as its two counts around the `/`. */
  lemma ModuleBadgeReadsBack(completedSlides: nat, slideCount: nat)
    requires slideCount > 0
    ensures var b := BadgeText(None, ModuleItem, Some(slideCount), completedSlides).value;
      exists i :: 0 <= i < |b| && b[i] == '/' &&
        AllDigits(b[..i]) && AllDigits(b[i + 1..]) &&
        DigitsValue(b[..i]) == completedSlides && DigitsValue(b[i + 1..]) == slideCount
  {
    var b := BadgeText(None, ModuleItem, Some(slideCount), completedSlides).value;
    var c := NatToString(completedSlides);
    var n := NatToString(slideCount);
    assert b == c + "/" + n;
    assert b[..|c|] == c;
    assert b[|c| + 1..] == n;
    NatToStringRoundTrip(completedSlides);
    NatToStringRoundTrip(slideCount);
  }

  /** A chapter's badge is its slide count followed by " slides". */
  lemma ChapterBadgeReadsBack(slideCount: nat)
    requires slideCount > 0
    ensures var b := BadgeText(None, ChapterItem, Some(slideCount), 0).value;
      |b| > |SLIDES_SUFFIX| &&
      b[|b| - |SLIDES_SUFFIX|..] == SLIDES_SUFFIX &&
      DigitsValue(b[..|b| - |SLIDES_SUFFIX|]) == slideCount
  {
    var b := BadgeText(None, ChapterItem, Some(slideCount), 0).value;
    var n := NatToString(slideCount);
    assert b == n + SLIDES_SUFFIX;
    assert b[..|b| - |SLIDES_SUFFIX|] == n;
    NatToStringRoundTrip(slideCount);
  }

  /** Children are rendered only for a folder that is shown open and has
      children. */
  function ChildrenVisible(isFolder: bool, forceExpanded: Option<bool>, isOpen: bool, hasChildren: bool): (r: bool)
    ensures r ==> isFolder && hasChildren
    ensures forceExpanded == Some(false) ==> !r
    ensures isFolder && hasChildren && forceExpanded == Some(true) ==> r
    ensures forceExpanded.None? ==> (r <==> isFolder && isOpen && hasChildren)
  {
    isFolder && EffectiveOpen(forceExpanded, isOpen) && hasChildren
  }
}
