/** A row of the season view's anime list: a horizontal swipe past 100 pixels assigns or clears
    the anime's status, depending on the tab, and the row's background names what each direction
    does. */
module SwipeableItem {
  import opened Wrappers
  import opened AnimeTypes
  import opened AnimeStatuses
  import HomePage

  /** The distance, in pixels, a drag must exceed to act. */
  const Threshold: real := 100.0

  /** What `handleDragEnd` does: nothing, or `onSetStatus(anime.id, status)`. */
  datatype SwipeAction = NoAction | SetTo(status: Option<AnimeStatus>)

  /** `handleDragEnd` for the horizontal drag offset `offset`. */
  function DragEnd(tab: ViewTab, offset: real): (r: SwipeAction)
    ensures -Threshold <= offset <= Threshold ==> r == NoAction
    ensures tab == UnselectedTab ==>
      (offset > Threshold ==> r == SetTo(Some(Watched))) && (offset < -Threshold ==> r == SetTo(Some(Unwatched)))
    ensures tab == WatchedTab ==> (r != NoAction <==> offset < -Threshold) && (r != NoAction ==> r == SetTo(None))
    ensures tab == UnwatchedTab ==> (r != NoAction <==> offset > Threshold) && (r != NoAction ==> r == SetTo(None))
  {
    match tab
    case UnselectedTab =>
      if offset > Threshold then SetTo(Some(Watched))
      else if offset < -Threshold then SetTo(Some(Unwatched))
      else NoAction
    case WatchedTab =>
      if offset < -Threshold then SetTo(None) else NoAction
    case UnwatchedTab =>
      if offset > Threshold then SetTo(None) else NoAction
  }

  /** A swipe always moves the anime off the tab it is listed on. */
  lemma SwipeLeavesTab(statuses: StatusMap, tab: ViewTab, anime: Anime, offset: real)
    requires HomePage.OnTab(statuses, tab, anime)
    requires DragEnd(tab, offset).SetTo?
    ensures !HomePage.OnTab(WithStatus(statuses, anime.id, DragEnd(tab, offset).status), tab, anime)
  {
  }

  /** Swiping back the other way on the tab the anime landed on undoes a swipe from the tab of
      anime without a status. */
  lemma SwipeBack(statuses: StatusMap, anime: Anime, offset: real)
    requires HomePage.OnTab(statuses, UnselectedTab, anime) && DragEnd(UnselectedTab, offset).SetTo?
    ensures var s := DragEnd(UnselectedTab, offset).status;
      var landed := if s == Some(Watched) then WatchedTab else UnwatchedTab;
      var moved := WithStatus(statuses, anime.id, s);
      HomePage.OnTab(moved, landed, anime)
      && DragEnd(landed, -offset).SetTo?
      && WithStatus(moved, anime.id, DragEnd(landed, -offset).status) == statuses
  {
    var s := DragEnd(UnselectedTab, offset).status;
    UndoRestores(statuses, anime.id, s);
  }

  /** The labels shown behind a row: the left one for a swipe to the left, the right one for a
      swipe to the right. */
  datatype Indicator = Indicator(left: string, right: string)

  /** `getIndicatorText`. */
  function IndicatorText(tab: ViewTab): Indicator {
    match tab
    case UnselectedTab => Indicator("← 未視聴", "視聴済み →")
    case WatchedTab => Indicator("← 未選択", "")
    case UnwatchedTab => Indicator("", "未選択 →")
  }

  /** Each label is shown exactly when a swipe that way acts, and it names the status that swipe
      applies, in the words of the status toast. */
  lemma IndicatorNamesActions(tab: ViewTab)
    ensures var left := DragEnd(tab, -Threshold - 1.0);
      IndicatorText(tab).left == (if left.SetTo? then "← " + HomePage.StatusLabel(left.status) else "")
    ensures var right := DragEnd(tab, Threshold + 1.0);
      IndicatorText(tab).right == (if right.SetTo? then HomePage.StatusLabel(right.status) + " →" else "")
  {
  }

  /** A swipe's effect depends only on its direction once it passes the threshold. */
  lemma DirectionOnly(tab: ViewTab, a: real, b: real)
    requires (a > Threshold && b > Threshold) || (a < -Threshold && b < -Threshold)
    ensures DragEnd(tab, a) == DragEnd(tab, b)
  {
  }
}
