/**
 * The transport bar under the preview: first / previous / play / next / last
 * buttons and a page counter, drawn from the cursor, the page count and the
 * play flag. Nothing is drawn for an empty book.
 */
module FlipbookControls {
  import opened Optional
  import opened PlaybackCursor

  /** What the bar shows: which buttons are disabled, where first/last jump, the counter. */
  datatype TransportBar = TransportBar(
    firstDisabled: bool, firstTarget: int,
    prevDisabled: bool,
    nextDisabled: bool,
    lastDisabled: bool, lastTarget: int,
    counterShown: int, counterTotal: nat,
    fpsBadgeShown: bool)

  /** `FlipbookControls` for the given props; `None` for an empty book. */
  function Render(currentPage: int, totalPages: nat, isPlaying: bool): (r: Option<TransportBar>)
    ensures r.None? <==> totalPages == 0
    ensures r.Some? ==> r.value.counterTotal == totalPages
    ensures r.Some? && InRange(currentPage, totalPages) ==>
      1 <= r.value.counterShown <= totalPages && r.value.counterShown == currentPage + 1
    ensures r.Some? ==> r.value.firstTarget == 0 && r.value.lastTarget == totalPages - 1
    ensures r.Some? && isPlaying ==> !r.value.prevDisabled && !r.value.nextDisabled
    ensures r.Some? ==> (r.value.fpsBadgeShown <==> isPlaying)
  {
    if totalPages == 0 then None
    else
      Some(TransportBar(
        currentPage == 0, 0,
        currentPage == 0 && !isPlaying,
        currentPage == totalPages - 1 && !isPlaying,
        currentPage == totalPages - 1, totalPages - 1,
        currentPage + 1, totalPages,
        isPlaying))
  }

  /**
   * "First" and "Last" are enabled exactly when their jump, made by the
   * session's clamped go-to, would move the cursor.
   */
  lemma JumpButtonsEnabledIffMove(c: int, n: nat, isPlaying: bool)
    requires n > 0 && InRange(c, n)
    ensures var bar := Render(c, n, isPlaying).value;
      (!bar.firstDisabled <==> ClampIndex(bar.firstTarget, n) != c) &&
      (!bar.lastDisabled <==> ClampIndex(bar.lastTarget, n) != c) &&
      ClampIndex(bar.firstTarget, n) == 0 && ClampIndex(bar.lastTarget, n) == n - 1
  {
  }

  /**
   * While paused the arrows never wrap: "Next" is disabled exactly where the
   * session's next step would not be `c + 1`, and "Prev" exactly where its
   * previous step would not be `c - 1`. While playing both stay enabled and
   * the session wraps around.
   */
  lemma PausedArrowsNeverWrap(c: int, n: nat)
    requires n > 0 && InRange(c, n)
    ensures var bar := Render(c, n, false).value;
      (bar.nextDisabled <==> NextIndex(c, n) != c + 1) &&
      (bar.prevDisabled <==> PrevIndex(c, n) != c - 1)
  {
  }
}
