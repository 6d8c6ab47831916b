/**
 * The playback cursor of the editing session: the index of the page on show,
 * moved by next/previous with wraparound, by a clamped go-to, and re-clamped
 * when a page is removed.
 */
module PlaybackCursor {

  function Max(a: int, b: int): int { if a < b then b else a }
  function Min(a: int, b: int): int { if a < b then a else b }

  /**
   * JavaScript's `%` on a positive divisor: the remainder has the sign of the
   * dividend (truncated division), unlike Dafny's Euclidean `%`.
   */
  function JsRem(a: int, b: int): (r: int)
    requires b > 0
    ensures a >= 0 ==> 0 <= r < b
    ensures a < 0 ==> -b < r <= 0
  {
    if a >= 0 then a % b else -((-a) % b)
  }

  /** The cursor range of a book with `n` pages: `[0, n - 1]`, or just 0 when empty. */
  predicate InRange(c: int, n: nat) {
    0 <= c <= Max(0, n - 1)
  }

  /** `nextPage`: `(c + 1) % Math.max(1, n)`; steps forward and wraps from the last page to 0. */
  function NextIndex(c: int, n: nat): (r: int)
    ensures InRange(c, n) ==> InRange(r, n)
    ensures 0 <= c < n - 1 ==> r == c + 1
    ensures n >= 1 && c == n - 1 ==> r == 0
    ensures n <= 1 && InRange(c, n) ==> r == 0
  {
    JsRem(c + 1, Max(1, n))
  }

  /** `prevPage`: `(c - 1 + n) % Math.max(1, n)`; steps back and wraps from 0 to the last page. */
  function PrevIndex(c: int, n: nat): (r: int)
    ensures InRange(c, n) ==> InRange(r, n)
    ensures 0 < c < n ==> r == c - 1
    ensures n >= 1 && c == 0 ==> r == n - 1
    ensures n <= 1 && InRange(c, n) ==> r == 0
  {
    JsRem(c - 1 + n, Max(1, n))
  }

  /** `goToPage`: `Math.max(0, Math.min(i, n - 1))`. */
  function ClampIndex(i: int, n: nat): (r: int)
    ensures InRange(r, n)
    ensures 0 <= i < n ==> r == i
    ensures i < 0 ==> r == 0
    ensures i >= n ==> r == Max(0, n - 1)
  {
    Max(0, Min(i, n - 1))
  }

  /**
   * The cursor after `removePage` on a book that had `oldLen` pages:
   * `Math.min(c, Math.max(0, oldLen - 2))`, whether or not a page went.
   */
  function RemovalCursor(c: int, oldLen: nat): (r: int)
    ensures r <= c
    ensures 0 <= c ==> InRange(r, Max(0, oldLen - 1))
    ensures c <= Max(0, oldLen - 2) ==> r == c
    ensures c >= Max(0, oldLen - 2) ==> r == Max(0, oldLen - 2)
  {
    Min(c, Max(0, oldLen - 2))
  }

  /** The cursor after `k` calls of `nextPage` on a book of `n` pages. */
  function NextN(c: int, n: nat, k: nat): int
    decreases k
  {
    if k == 0 then c else NextIndex(NextN(c, n, k - 1), n)
  }

  // ---------------------------------------------------------------------------
  // Properties

  /** Next and previous undo each other on every in-range cursor. */
  lemma NextPrevInverse(c: int, n: nat)
    requires InRange(c, n)
    ensures PrevIndex(NextIndex(c, n), n) == c
    ensures NextIndex(PrevIndex(c, n), n) == c
  {
  }

  /** Away from the last page, `j` steps forward add `j` to the cursor. */
  lemma {:induction false} NextNAdvances(c: int, n: nat, j: nat)
    requires 0 <= c && c + j < n
    ensures NextN(c, n, j) == c + j
    decreases j
  {
    if j > 0 {
      NextNAdvances(c, n, j - 1);
    }
  }

  /** `a` steps followed by `b` steps are `a + b` steps. */
  lemma {:induction false} NextNCompose(c: int, n: nat, a: nat, b: nat)
    ensures NextN(c, n, a + b) == NextN(NextN(c, n, a), n, b)
    decreases b
  {
    if b > 0 {
      NextNCompose(c, n, a, b - 1);
      assert NextN(c, n, a + b) == NextIndex(NextN(c, n, a + b - 1), n);
    }
  }

  /** After `n` steps the cursor is back on the page it started from: autoplay
      cycles through every page and starts over. */
  lemma NextNFullCycle(c: int, n: nat)
    requires n >= 1 && InRange(c, n)
    ensures NextN(c, n, n) == c
  {
    var toLast := n - 1 - c;
    NextNAdvances(c, n, toLast);
    NextNCompose(c, n, toLast, 1);
    assert NextN(c, n, toLast + 1) == 0;
    NextNCompose(c, n, toLast + 1, c);
    NextNAdvances(0, n, c);
  }

  /** The clamp after `removePage` keeps the cursor valid for any resulting length
      that lost at most one page. */
  lemma RemovalCursorInRange(c: int, oldLen: nat, newLen: nat)
    requires InRange(c, oldLen) && newLen + 1 >= oldLen
    ensures InRange(RemovalCursor(c, oldLen), newLen)
  {
  }
}
