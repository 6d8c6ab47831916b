/**
 * The flipbook editing session (`useFlipbook`): the page list, the playback
 * cursor, the play flag, the speed and the title, each overwritten by the
 * session's operations. Ids that the source draws at random are passed in as
 * fresh values.
 */
module FlipbookSession {
  import opened FlipbookPages
  import opened PlaybackCursor

  const DefaultFps: int := 12
  const DefaultTitle: string := "Untitled Flipbook"
  /** The speed slider's range. */
  const MinFps: int := 1
  const MaxFps: int := 30

  class Flipbook {
    var pages: seq<Page>
    var currentPage: int
    var isPlaying: bool
    var fps: int
    var title: string
    var description: string

    /** Dense order, unique ids, an in-range cursor and a speed from the slider. */
    ghost predicate Valid()
      reads this
    {
      Dense(pages) && UniqueIds(pages) && InRange(currentPage, |pages|) &&
      MinFps <= fps <= MaxFps
    }

    /** The initial state: no pages, cursor 0, paused, 12 fps, the placeholder title. */
    constructor ()
      ensures Valid()
      ensures pages == [] && currentPage == 0 && !isPlaying
      ensures fps == DefaultFps && title == DefaultTitle && description == ""
    {
      pages := [];
      currentPage := 0;
      isPlaying := false;
      fps := DefaultFps;
      title := DefaultTitle;
      description := "";
    }

    /** `addPages`: one new page per url, appended in input order with order `oldLen + k`. */
    method AddPages(imageUrls: seq<string>, freshIds: seq<PageId>)
      requires Valid()
      requires |freshIds| == |imageUrls| && FreshIds(freshIds, pages)
      modifies this`pages
      ensures Valid()
      ensures pages == Appended(old(pages), freshIds, imageUrls)
    {
      pages := Appended(pages, freshIds, imageUrls);
    }

    /**
     * `removePage`: drop the pages with that id, re-index, and clamp the cursor
     * against the length before the removal.
     */
    method RemovePage(pageId: PageId)
      requires Valid()
      modifies this`pages, this`currentPage
      ensures Valid()
      ensures pages == Reindex(Without(old(pages), pageId))
      ensures |pages| == if HasId(old(pages), pageId) then |old(pages)| - 1 else |old(pages)|
      ensures !HasId(pages, pageId)
      ensures currentPage == RemovalCursor(old(currentPage), |old(pages)|)
    {
      var oldLen := |pages|;
      WithoutUnique(pages, pageId);
      pages := Reindex(Without(pages, pageId));
      currentPage := RemovalCursor(currentPage, oldLen);
      RemovalCursorInRange(old(currentPage), oldLen, |pages|);
    }

    /**
     * `duplicatePage`: an unknown id changes nothing; otherwise a copy with the
     * fresh id goes right after the source page. The cursor is not touched.
     */
    method DuplicatePage(pageId: PageId, freshId: PageId)
      requires Valid()
      requires !HasId(pages, freshId)
      modifies this`pages
      ensures Valid()
      ensures pages == Duplicated(old(pages), pageId, freshId)
      ensures !HasId(old(pages), pageId) ==> pages == old(pages)
    {
      var index := FindIndex(pages, pageId);
      if index.None? {
        return;
      }
      var k := index.value;
      DuplicatedSpec(pages, pageId, freshId, k);
      var newPage := Page(freshId, pages[k].imageUrl, k + 1);
      pages := Reindex(InsertAt(pages, k + 1, newPage));
    }

    /** `reorderPages`: move the page at `fromIndex` to `toIndex` of the shortened list. */
    method ReorderPages(fromIndex: nat, toIndex: nat)
      requires Valid()
      requires fromIndex < |pages| && toIndex < |pages|
      modifies this`pages
      ensures Valid()
      ensures pages == Reindex(Move(old(pages), fromIndex, toIndex))
      ensures multiset(Content(pages)) == multiset(Content(old(pages)))
      ensures pages[toIndex].id == old(pages)[fromIndex].id
    {
      UniqueMove(pages, fromIndex, toIndex);
      ReorderedContent(pages, fromIndex, toIndex);
      pages := Reindex(Move(pages, fromIndex, toIndex));
    }

    /** `nextPage`. */
    method NextPage()
      requires Valid()
      modifies this`currentPage
      ensures Valid()
      ensures currentPage == NextIndex(old(currentPage), |pages|)
    {
      currentPage := NextIndex(currentPage, |pages|);
    }

    /** `prevPage`. */
    method PrevPage()
      requires Valid()
      modifies this`currentPage
      ensures Valid()
      ensures currentPage == PrevIndex(old(currentPage), |pages|)
    {
      currentPage := PrevIndex(currentPage, |pages|);
    }

    /** `goToPage`. */
    method GoToPage(index: int)
      requires Valid()
      modifies this`currentPage
      ensures Valid()
      ensures currentPage == ClampIndex(index, |pages|)
    {
      currentPage := ClampIndex(index, |pages|);
    }

    /** `togglePlay`. */
    method TogglePlay()
      requires Valid()
      modifies this`isPlaying
      ensures Valid()
      ensures isPlaying == !old(isPlaying)
    {
      isPlaying := !isPlaying;
    }

    /** `setFps`, fed by the speed slider. */
    method SetFps(value: int)
      requires Valid()
      requires MinFps <= value <= MaxFps
      modifies this`fps
      ensures Valid() && fps == value
    {
      fps := value;
    }

    /** `setTitle`. */
    method SetTitle(value: string)
      requires Valid()
      modifies this`title
      ensures Valid() && title == value
    {
      title := value;
    }

    /** `setDescription`. */
    method SetDescription(value: string)
      requires Valid()
      modifies this`description
      ensures Valid() && description == value
    {
      description := value;
    }

    /** `clearPages`: no pages, cursor 0, playback stopped; speed and title stay. */
    method ClearPages()
      requires Valid()
      modifies this`pages, this`currentPage, this`isPlaying
      ensures Valid()
      ensures pages == [] && currentPage == 0 && !isPlaying
    {
      pages := [];
      currentPage := 0;
      isPlaying := false;
    }

    /** Whether the autoplay interval is armed: playing and more than one page. */
    predicate AutoplayArmed()
      reads this
    {
      isPlaying && |pages| > 1
    }

    /**
     * One tick of the autoplay interval: it advances the cursor exactly when
     * the interval is armed, and otherwise changes nothing.
     */
    method Tick() returns (advanced: bool)
      requires Valid()
      modifies this`currentPage
      ensures Valid()
      ensures advanced == old(AutoplayArmed())
      ensures currentPage == if advanced then NextIndex(old(currentPage), |pages|) else old(currentPage)
    {
      advanced := AutoplayArmed();
      if advanced {
        NextPage();
      }
    }
  }

  /**
   * With ids shared by several pages the removal clamp is not enough: three
   * pages all called "x", cursor on the last, `removePage("x")` empties the
   * list but leaves the cursor at 1. This is why unique ids are part of the
   * session's invariant.
   */
  lemma DuplicateIdsBreakCursorBound()
    ensures var s := [Page("x", "a", 0), Page("x", "b", 1), Page("x", "c", 2)];
      Without(s, "x") == [] && RemovalCursor(2, |s|) == 1 && !InRange(1, |Without(s, "x")|)
  {
  }

  /**
   * `removePage` with an id that is not in the book still clamps the cursor
   * from the old length: on two pages with the cursor on the second, removing
   * an unknown id moves the cursor to the first page.
   */
  lemma UnknownIdStillMovesCursor()
    ensures var s := [Page("a", "u", 0), Page("b", "v", 1)];
      !HasId(s, "zz") && Without(s, "zz") == s && RemovalCursor(1, |s|) == 0
  {
  }
}
