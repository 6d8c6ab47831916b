/**
 * The drag-to-reorder state of the thumbnail rail: which thumbnail is being
 * dragged and which one it is over. Ending a drag asks the session to move a
 * page only when both are known and differ.
 */
module PageThumbnails {
  import opened Optional

  /** The arguments of an `onReorder(fromIndex, toIndex)` call. */
  datatype ReorderRequest = ReorderRequest(fromIndex: nat, toIndex: nat)

  /**
   * What `handleDragEnd` emits for the recorded indices: a request exactly
   * when both are set and distinct, carrying them in that order.
   */
  function RequestFor(dragged: Option<nat>, over: Option<nat>): (r: Option<ReorderRequest>)
    ensures r.Some? <==> dragged.Some? && over.Some? && dragged.value != over.value
    ensures r.Some? ==> r.value.fromIndex == dragged.value && r.value.toIndex == over.value
    ensures r.Some? ==> r.value.fromIndex != r.value.toIndex
  {
    if dragged.Some? && over.Some? && dragged.value != over.value then
      Some(ReorderRequest(dragged.value, over.value))
    else
      None
  }

  /** An optional index that, when present, names one of `n` rendered thumbnails. */
  predicate Below(i: Option<nat>, n: nat) {
    i.Some? ==> i.value < n
  }

  /** A request that emitted against `n` thumbnails is a valid move of the page list. */
  lemma RequestInRange(dragged: Option<nat>, over: Option<nat>, n: nat)
    requires Below(dragged, n) && Below(over, n)
    ensures var r := RequestFor(dragged, over);
      r.Some? ==> r.value.fromIndex < n && r.value.toIndex < n
  {
  }

  /**
   * The rail for one rendering of `pageCount` thumbnails. The handlers are
   * attached to the thumbnails, so the index each receives is a rendered one.
   */
  class ThumbnailRail {
    const pageCount: nat
    var draggedIndex: Option<nat>
    var dragOverIndex: Option<nat>

    /** Every recorded index names a rendered thumbnail. */
    ghost predicate Valid()
      reads this
    {
      Below(draggedIndex, pageCount) && Below(dragOverIndex, pageCount)
    }

    /** A fresh rail: no drag in progress. */
    constructor (pageCount: nat)
      ensures Valid()
      ensures this.pageCount == pageCount
      ensures draggedIndex.None? && dragOverIndex.None?
    {
      this.pageCount := pageCount;
      draggedIndex := None;
      dragOverIndex := None;
    }

    /** `handleDragStart`: record the dragged thumbnail. */
    method HandleDragStart(index: nat)
      requires Valid() && index < pageCount
      modifies this`draggedIndex
      ensures Valid()
      ensures draggedIndex == Some(index)
    {
      draggedIndex := Some(index);
    }

    /**
     * `handleDragOver`: record the hovered thumbnail only while a drag is in
     * progress and the hovered one is not the dragged one.
     */
    method HandleDragOver(index: nat)
      requires Valid() && index < pageCount
      modifies this`dragOverIndex
      ensures Valid()
      ensures old(draggedIndex).Some? && old(draggedIndex).value != index ==> dragOverIndex == Some(index)
      ensures !(old(draggedIndex).Some? && old(draggedIndex).value != index) ==> dragOverIndex == old(dragOverIndex)
    {
      if draggedIndex.Some? && draggedIndex.value != index {
        dragOverIndex := Some(index);
      }
    }

    /**
     * `handleDragEnd`: emit the reorder the recorded indices call for, if
     * any, then forget both indices whether or not one was emitted.
     */
    method HandleDragEnd() returns (request: Option<ReorderRequest>)
      requires Valid()
      modifies this`draggedIndex, this`dragOverIndex
      ensures Valid()
      ensures request == RequestFor(old(draggedIndex), old(dragOverIndex))
      ensures request.Some? ==> request.value.fromIndex < pageCount && request.value.toIndex < pageCount
      ensures draggedIndex.None? && dragOverIndex.None?
    {
      request := RequestFor(draggedIndex, dragOverIndex);
      RequestInRange(draggedIndex, dragOverIndex, pageCount);
      draggedIndex := None;
      dragOverIndex := None;
    }
  }
}
