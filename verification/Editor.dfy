/**
 * The editor page wires the thumbnail rail's `onReorder` to the session's
 * `reorderPages`, with the rail rendered from the session's own page list.
 */
module FlipbookBuilder {
  import opened FlipbookPages
  import FlipbookSession
  import PageThumbnails

  /**
   * The end of a drag on the rail: whatever reorder the rail emits is a valid
   * call of `reorderPages`, and without one the pages stay as they were.
   */
  method EndDrag(rail: PageThumbnails.ThumbnailRail, book: FlipbookSession.Flipbook)
    requires rail.Valid() && book.Valid()
    requires rail.pageCount == |book.pages|
    modifies rail`draggedIndex, rail`dragOverIndex, book`pages
    ensures rail.Valid() && book.Valid()
    ensures rail.draggedIndex.None? && rail.dragOverIndex.None?
    ensures var r := PageThumbnails.RequestFor(old(rail.draggedIndex), old(rail.dragOverIndex));
      if r.Some? then
        r.value.fromIndex < |old(book.pages)| && r.value.toIndex < |old(book.pages)| &&
        book.pages == Reindex(Move(old(book.pages), r.value.fromIndex, r.value.toIndex))
      else
        book.pages == old(book.pages)
  {
    var request := rail.HandleDragEnd();
    if request.Some? {
      book.ReorderPages(request.value.fromIndex, request.value.toIndex);
    }
  }
}
