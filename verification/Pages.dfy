/**
 * The page list of a flipbook under edit and the pure list computations the
 * editing session applies to it: appending uploaded pages, filtering a page
 * out, inserting a copy, moving a page, and re-deriving the dense `order`.
 */
module FlipbookPages {
  import opened Optional

  type PageId = string

  /** One page: a stable id, the image it shows and its zero-based position. */
  datatype Page = Page(id: PageId, imageUrl: string, order: int)

  /** Dense order: every page's `order` is its position in the list. */
  predicate Dense(s: seq<Page>) {
    forall i :: 0 <= i < |s| ==> s[i].order == i
  }

  /** No two pages share an id. */
  predicate UniqueIds(s: seq<Page>) {
    forall i, j :: 0 <= i < j < |s| ==> s[i].id != s[j].id
  }

  predicate HasId(s: seq<Page>, id: PageId) {
    exists i :: 0 <= i < |s| && s[i].id == id
  }

  /** What a page is apart from its position: its id and its image. */
  function Content(s: seq<Page>): (c: seq<(PageId, string)>)
    ensures |c| == |s|
    ensures forall i :: 0 <= i < |s| ==> c[i] == (s[i].id, s[i].imageUrl)
  {
    seq(|s|, i requires 0 <= i < |s| => (s[i].id, s[i].imageUrl))
  }

  /** `list.map((p, i) => ({ ...p, order: i }))`: rewrite every `order` to the position. */
  function Reindex(s: seq<Page>): (r: seq<Page>)
    ensures |r| == |s| && Dense(r)
    ensures Content(r) == Content(s)
    ensures UniqueIds(s) ==> UniqueIds(r)
    ensures Dense(s) ==> r == s
  {
    seq(|s|, i requires 0 <= i < |s| => s[i].(order := i))
  }

  /** The pages `addPages` creates: the k-th url gets the k-th fresh id and order `base + k`. */
  function NewPages(ids: seq<PageId>, urls: seq<string>, base: int): (r: seq<Page>)
    requires |ids| == |urls|
    ensures |r| == |urls|
    ensures forall k :: 0 <= k < |urls| ==> r[k] == Page(ids[k], urls[k], base + k)
  {
    seq(|urls|, k requires 0 <= k < |urls| => Page(ids[k], urls[k], base + k))
  }

  /** The ids are pairwise distinct and none of them is already used in `s`. */
  predicate FreshIds(ids: seq<PageId>, s: seq<Page>) {
    (forall k, m :: 0 <= k < m < |ids| ==> ids[k] != ids[m]) &&
    (forall k :: 0 <= k < |ids| ==> !HasId(s, ids[k]))
  }

  /** `addPages`: the old list followed by one new page per url, in input order. */
  function Appended(s: seq<Page>, ids: seq<PageId>, urls: seq<string>): (r: seq<Page>)
    requires |ids| == |urls|
    ensures |r| == |s| + |urls|
    ensures r[..|s|] == s
    ensures forall k :: 0 <= k < |urls| ==> r[|s| + k] == Page(ids[k], urls[k], |s| + k)
    ensures Dense(s) ==> Dense(r)
    ensures UniqueIds(s) && FreshIds(ids, s) ==> UniqueIds(r)
  {
    var r := s + NewPages(ids, urls, |s|);
    assert r[..|s|] == s;
    r
  }

  /** `list.filter(p => p.id !== id)`: every page whose id differs, in the same order. */
  function Without(s: seq<Page>, id: PageId): (r: seq<Page>)
    ensures |r| <= |s|
    ensures forall i :: 0 <= i < |r| ==> r[i].id != id
    ensures !HasId(s, id) ==> r == s
    decreases |s|
  {
    if s == [] then []
    else if s[0].id == id then Without(s[1..], id)
    else
      [s[0]] + Without(s[1..], id)
  }

  /** `list.findIndex(p => p.id === id)`: the first position holding `id`, if any. */
  function FindIndex(s: seq<Page>, id: PageId): (r: Option<nat>)
    ensures r.None? <==> !HasId(s, id)
    ensures r.Some? ==> r.value < |s| && s[r.value].id == id
    ensures r.Some? ==> forall i :: 0 <= i < r.value ==> s[i].id != id
    decreases |s|
  {
    if s == [] then None
    else if s[0].id == id then Some(0)
    else
      match FindIndex(s[1..], id)
      case None =>
        None
      case Some(k) => Some(k + 1)
  }

  /** `copy.splice(k, 0, x)`: `x` placed at position `k`, later elements shifted right. */
  function InsertAt<T>(s: seq<T>, k: nat, x: T): (r: seq<T>)
    requires k <= |s|
    ensures |r| == |s| + 1 && r[k] == x
    ensures forall i :: 0 <= i < k ==> r[i] == s[i]
    ensures forall i :: k < i < |r| ==> r[i] == s[i - 1]
    ensures multiset(r) == multiset(s) + multiset{x}
  {
    assert s == s[..k] + s[k..];
    s[..k] + [x] + s[k..]
  }

  /** `copy.splice(k, 1)`: the list without its element at position `k`. */
  function RemoveAt<T>(s: seq<T>, k: nat): (r: seq<T>)
    requires k < |s|
    ensures |r| == |s| - 1
    ensures forall i :: 0 <= i < k ==> r[i] == s[i]
    ensures forall i :: k <= i < |r| ==> r[i] == s[i + 1]
    ensures multiset(r) + multiset{s[k]} == multiset(s)
  {
    assert s == s[..k] + [s[k]] + s[k + 1..];
    s[..k] + s[k + 1..]
  }

  /**
   * `reorderPages` before re-indexing: take the element out of `from`, then
   * insert it at `to` in the shortened list (post-removal indexing).
   */
  function Move<T>(s: seq<T>, from: nat, to: nat): (r: seq<T>)
    requires from < |s| && to < |s|
    ensures |r| == |s| && r[to] == s[from]
    ensures multiset(r) == multiset(s)
  {
    InsertAt(RemoveAt(s, from), to, s[from])
  }

  /**
   * `duplicatePage`: an unknown id leaves the list as it is; otherwise a page
   * with the fresh id and the source page's image goes right after the first
   * page holding `id`, and the whole list is re-indexed.
   */
  function Duplicated(s: seq<Page>, id: PageId, freshId: PageId): (r: seq<Page>)
    ensures !HasId(s, id) ==> r == s
    ensures HasId(s, id) ==> |r| == |s| + 1 && Dense(r)
  {
    match FindIndex(s, id)
    case None => s
    case Some(k) => Reindex(InsertAt(s, k + 1, Page(freshId, s[k].imageUrl, k + 1)))
  }

  // ---------------------------------------------------------------------------
  // Properties of the list operations

  /** With unique ids, looking up the id of the page at `k` finds `k`. */
  lemma FindIndexUnique(s: seq<Page>, k: nat)
    requires k < |s| && UniqueIds(s)
    ensures FindIndex(s, s[k].id) == Some(k)
  {
  }

  /** `duplicatePage` with a known id: the copy sits right after the source page,
      every other page keeps its content and the ids stay unique. */
  lemma DuplicatedSpec(s: seq<Page>, id: PageId, freshId: PageId, k: nat)
    requires UniqueIds(s) && !HasId(s, freshId)
    requires k < |s| && s[k].id == id
    ensures var r := Duplicated(s, id, freshId);
      |r| == |s| + 1 && Dense(r) && UniqueIds(r) &&
      r[k + 1].id == freshId && r[k + 1].imageUrl == s[k].imageUrl &&
      Content(r) == Content(s[..k + 1]) + [(freshId, s[k].imageUrl)] + Content(s[k + 1..])
  {
  }

  /** Inserting a page whose id is not in the list keeps the ids unique. */
  lemma UniqueInsert(s: seq<Page>, k: nat, x: Page)
    requires k <= |s| && UniqueIds(s) && !HasId(s, x.id)
    ensures UniqueIds(InsertAt(s, k, x))
  {
  }

  /** Taking one page out keeps the ids unique, and the removed id is gone. */
  lemma UniqueRemove(s: seq<Page>, k: nat)
    requires k < |s| && UniqueIds(s)
    ensures UniqueIds(RemoveAt(s, k))
    ensures !HasId(RemoveAt(s, k), s[k].id)
  {
  }

  /** `reorderPages` keeps the ids unique. */
  lemma UniqueMove(s: seq<Page>, from: nat, to: nat)
    requires from < |s| && to < |s| && UniqueIds(s)
    ensures UniqueIds(Move(s, from, to))
  {
  }

  /**
   * Where every element of `s` lands after `Move(s, from, to)`: positions
   * outside the moved span are untouched, the span shifts by one towards
   * `from`, and position `to` holds the moved element.
   */
  lemma MoveAt<T>(s: seq<T>, from: nat, to: nat, i: nat)
    requires from < |s| && to < |s| && i < |s|
    ensures var r := Move(s, from, to);
      (i == to ==> r[i] == s[from]) &&
      (i < from && i < to ==> r[i] == s[i]) &&
      (i > from && i > to ==> r[i] == s[i]) &&
      (from <= i < to ==> r[i] == s[i + 1]) &&
      (to < i <= from ==> r[i] == s[i - 1])
  {
  }

  /** Moving a page back from `to` to `from` undoes the move. */
  lemma MoveInverse<T>(s: seq<T>, from: nat, to: nat)
    requires from < |s| && to < |s|
    ensures Move(Move(s, from, to), to, from) == s
  {
    var r := Move(s, from, to);
    var b := Move(r, to, from);
    forall i | 0 <= i < |s| ensures b[i] == s[i] {
      MoveAt(r, to, from, i);
      if i == from {
        MoveAt(s, from, to, to);
      } else if i < from && i < to {
        MoveAt(s, from, to, i);
      } else if i > from && i > to {
        MoveAt(s, from, to, i);
      } else if to <= i < from {
        MoveAt(s, from, to, i + 1);
      } else {
        assert from < i <= to;
        MoveAt(s, from, to, i - 1);
      }
    }
  }

  /** `reorderPages` on page contents: a permutation that moves the page at `from` to `to`. */
  lemma ReorderedContent(s: seq<Page>, from: nat, to: nat)
    requires from < |s| && to < |s|
    ensures var r := Reindex(Move(s, from, to));
      |r| == |s| && Dense(r) && r[to].id == s[from].id &&
      Content(r) == Move(Content(s), from, to) &&
      multiset(Content(r)) == multiset(Content(s))
  {
  }

  /** `[A, B, C]` moved from 0 to 2 gives `[B, C, A]`. */
  lemma MoveFirstToLast<T>(a: T, b: T, c: T)
    ensures Move([a, b, c], 0, 2) == [b, c, a]
  {
  }

  /** With unique ids, filtering out the id of the page at `k` is removing position `k`. */
  lemma {:induction false} WithoutAt(s: seq<Page>, k: nat)
    requires k < |s| && UniqueIds(s)
    ensures Without(s, s[k].id) == RemoveAt(s, k)
    decreases |s|
  {
    var id := s[k].id;
    var t := s[1..];
    assert forall i :: 0 <= i < |t| ==> t[i] == s[i + 1];
    if k == 0 {
      assert forall i :: 0 <= i < |t| ==> t[i].id != id;
      assert Without(t, id) == t;
      assert RemoveAt(s, 0) == t;
    } else {
      assert s[0].id != id && t[k - 1] == s[k];
      assert UniqueIds(t);
      WithoutAt(t, k - 1);
      assert Without(s, id) == [s[0]] + RemoveAt(t, k - 1);
      assert RemoveAt(s, k) == [s[0]] + RemoveAt(t, k - 1);
    }
  }

  /** `removePage` with unique ids: at most one page goes, the ids stay unique,
      and the removed id no longer occurs. */
  lemma WithoutUnique(s: seq<Page>, id: PageId)
    requires UniqueIds(s)
    ensures |Without(s, id)| == if HasId(s, id) then |s| - 1 else |s|
    ensures UniqueIds(Without(s, id))
    ensures !HasId(Without(s, id), id)
  {
    if HasId(s, id) {
      var k :| 0 <= k < |s| && s[k].id == id;
      WithoutAt(s, k);
      UniqueRemove(s, k);
    }
  }

  /** `removePage` keeps exactly the pages whose id differs. */
  lemma {:induction false} WithoutMembers(s: seq<Page>, id: PageId, p: Page)
    ensures p in Without(s, id) <==> p in s && p.id != id
    decreases |s|
  {
    if s != [] {
      WithoutMembers(s[1..], id, p);
      assert s == [s[0]] + s[1..];
    }
  }

  /** Filtering distributes over concatenation: pages that stay keep their relative order. */
  lemma {:induction false} WithoutAppend(a: seq<Page>, b: seq<Page>, id: PageId)
    ensures Without(a + b, id) == Without(a, id) + Without(b, id)
    decreases |a|
  {
    if a != [] {
      assert (a + b)[1..] == a[1..] + b;
      WithoutAppend(a[1..], b, id);
    } else {
      assert a + b == b;
    }
  }
}
