/** The flashcard study cursor (frontend-react/src/pages/StudyPage.js): the
    index of the card on show and whether it is flipped, moved cyclically by
    next/prev and pulled back into the shrunk list after a delete. The card
    count is the length of the flashcard list the page receives.

    The index is an `int`: a delete tests the index of the render that
    started it but decrements the live one, so a navigation while the delete
    is pending can leave it at -1. */
module StudyCursor {
  import opened Wrappers

  /** JavaScript's `a % n` for `n > 0`: the remainder truncates toward zero,
      so it takes the sign of `a`. */
  function JsRem(a: int, n: int): (r: int)
    requires n > 0
    ensures -n < r < n
    ensures a >= 0 ==> 0 <= r
    ensures a < 0 ==> r <= 0
    ensures (a - r) % n == 0
  {
    if a >= 0 then
      var q := a / n;
      assert a - a % n == n * q;
      MulMod(q, n);
      a % n
    else
      var b := -a;
      var q := b / n;
      assert a + b % n == -(n * q);
      MulNeg(n, q);
      MulMod(-q, n);
      -(b % n)
  }

  /** A multiple of `n` leaves no remainder. */
  lemma MulMod(q: int, n: int)
    requires n > 0
    ensures (n * q) % n == 0
  {
    var m := n * q;
    var d, r := m / n, m % n;
    assert m == n * d + r && 0 <= r < n;
    MulSub(n, q, d);
    assert r == n * (q - d);
    if q - d != 0 {
      MulFar(n, q - d);
    }
  }

  lemma MulSub(n: int, q: int, d: int)
    ensures n * q - n * d == n * (q - d)
  {
  }

  lemma MulNeg(n: int, q: int)
    ensures -(n * q) == n * -q
  {
  }

  /** A non-zero multiple of `n > 0` is at least `n` in size. */
  lemma MulFar(n: int, k: int)
    requires n > 0 && k != 0
    ensures n * k >= n || n * k <= -n
  {
  }

  /** `(currentIndex + 1) % flashcards.length`. */
  function NextIndex(i: int, n: nat): (r: int)
    requires n > 1
    ensures r < n
    ensures i >= -1 ==> 0 <= r
    ensures -1 <= i < n ==> r == if i == n - 1 then 0 else i + 1
  {
    if 0 <= i + 1 <= n then ModBelowTwice(i + 1, n); JsRem(i + 1, n) else JsRem(i + 1, n)
  }

  /** `(currentIndex - 1 + flashcards.length) % flashcards.length`. */
  function PrevIndex(i: int, n: nat): (r: int)
    requires n > 1
    ensures r < n
    ensures i >= 1 - n ==> 0 <= r
    ensures -1 <= i < n ==> r == if i == 0 then n - 1 else if i == -1 then n - 2 else i - 1
  {
    if 0 <= i - 1 + n < 2 * n then ModBelowTwice(i - 1 + n, n); JsRem(i - 1 + n, n) else JsRem(i - 1 + n, n)
  }

  /** Euclidean remainder of a value below twice the modulus. */
  lemma ModBelowTwice(a: int, n: int)
    requires 0 < n && 0 <= a < 2 * n
    ensures a % n == if a < n then a else a - n
  {
    if a >= n {
      assert a == n * 1 + (a - n);
    }
  }

  /** Next and prev undo each other on a valid index. */
  lemma NextPrevInverse(i: nat, n: nat)
    requires n > 1 && i < n
    ensures PrevIndex(NextIndex(i, n), n) == i
    ensures NextIndex(PrevIndex(i, n), n) == i
  {
  }

  /** Stepping moves the cursor: a step never lands where it started. */
  lemma StepMoves(i: nat, n: nat)
    requires n > 1
    ensures NextIndex(i, n) != i && PrevIndex(i, n) != i
  {
  }

  /** The index after a confirmed delete of a list that had `n` cards. */
  function AfterDelete(i: nat, n: nat, success: bool): (r: nat)
    ensures r == i || r + 1 == i
    ensures r < i <==> success && i > 0 && i >= n - 1
  {
    if success && i >= n - 1 && i > 0 then i - 1 else i
  }

  /** A valid index stays valid for the list one card shorter (or is 0 when
      the list becomes empty). */
  lemma AfterDeleteInRange(i: nat, n: nat)
    requires i < n
    ensures AfterDelete(i, n, true) < n - 1 || (n == 1 && AfterDelete(i, n, true) == 0)
  {
  }

  /** What `handleDelete` reads from the render it belongs to: the index and
      the card count at the time the delete was confirmed. */
  datatype DeleteRequest = DeleteRequest(index: int, count: nat)

  /** The index once the delete resolves: the test reads the captured index
      and count, but `prev => prev - 1` decrements the `live` index. */
  function Resolved(live: int, req: DeleteRequest, success: bool): (r: int)
    ensures r == live || r == live - 1
    ensures r < live <==> success && req.index > 0 && req.index >= req.count - 1
  {
    if success && req.index >= req.count - 1 && req.index > 0 then live - 1 else live
  }

  /** With nothing in between, the two steps are the single correction
      `AfterDelete`. */
  lemma ResolvedInPlace(i: nat, n: nat, success: bool)
    ensures Resolved(i, DeleteRequest(i, n), success) == AfterDelete(i, n, success)
  {
  }

  /** Deleting the last of `n > 1` cards and pressing next before the delete
      resolves leaves the index at -1, outside the list (for 3 cards at
      index 2: next gives 0, the resolution gives -1). Pressing prev instead
      gives `n - 3` where `AfterDelete` gives `n - 2`. */
  lemma StaleDeleteIndex(n: nat)
    requires n > 1
    ensures Resolved(NextIndex(n - 1, n), DeleteRequest(n - 1, n), true) == -1
    ensures Resolved(PrevIndex(n - 1, n), DeleteRequest(n - 1, n), true) == n - 3
    ensures AfterDelete(n - 1, n, true) == n - 2
  {
  }

  class StudySession {
    var currentIndex: int
    var isFlipped: bool

    constructor ()
      ensures currentIndex == 0 && !isFlipped
    {
      currentIndex := 0;
      isFlipped := false;
    }

    /** `setCurrentIndex` followed by the effect on `currentIndex`, which
        turns the card face down whenever the index changes. */
    method SetIndex(k: int)
      modifies this
      ensures currentIndex == k
      ensures isFlipped == (old(isFlipped) && k == old(currentIndex))
    {
      if k != currentIndex {
        currentIndex := k;
        isFlipped := false;
      }
    }

    /** `handleNavigation`: a flipped card is turned face down, then the
        index moves (the 150 ms animation delay is not modelled). */
    method Navigate(k: int)
      modifies this
      ensures currentIndex == k && !isFlipped
    {
      if isFlipped {
        isFlipped := false;
      }
      SetIndex(k);
    }

    method Next(n: nat)
      modifies this
      ensures n <= 1 ==> currentIndex == old(currentIndex) && isFlipped == old(isFlipped)
      ensures n > 1 ==> currentIndex == NextIndex(old(currentIndex), n) && !isFlipped
    {
      if n <= 1 {
        return;
      }
      Navigate(NextIndex(currentIndex, n));
    }

    method Prev(n: nat)
      modifies this
      ensures n <= 1 ==> currentIndex == old(currentIndex) && isFlipped == old(isFlipped)
      ensures n > 1 ==> currentIndex == PrevIndex(old(currentIndex), n) && !isFlipped
    {
      if n <= 1 {
        return;
      }
      Navigate(PrevIndex(currentIndex, n));
    }

    /** The first half of `handleDelete` on a list of `n` cards:
        `confirmed` is the answer to the confirmation dialog. A confirmed
        delete captures the current index and count and starts the request;
        nothing changes yet. */
    method BeginDelete(n: nat, confirmed: bool) returns (req: Option<DeleteRequest>)
      ensures req.Some? <==> confirmed
      ensures req.Some? ==> req.value == DeleteRequest(currentIndex, n)
    {
      if !confirmed {
        return None;
      }
      req := Some(DeleteRequest(currentIndex, n));
    }

    /** The second half: `deleteFlashcard` has answered `success`, possibly
        after other handlers moved the index. */
    method DeleteResolved(req: DeleteRequest, success: bool)
      modifies this
      ensures currentIndex == Resolved(old(currentIndex), req, success)
      ensures currentIndex != old(currentIndex) ==> !isFlipped
      ensures currentIndex == old(currentIndex) ==> isFlipped == old(isFlipped)
    {
      if success && req.index >= req.count - 1 && req.index > 0 {
        SetIndex(currentIndex - 1);
      }
    }

    /** `handleDelete` when nothing else happens while the request is
        pending. */
    method Delete(n: nat, confirmed: bool, success: bool)
      modifies this
      ensures !confirmed ==> currentIndex == old(currentIndex) && isFlipped == old(isFlipped)
      ensures confirmed && old(currentIndex) >= 0 ==> currentIndex == AfterDelete(old(currentIndex), n, success)
      ensures currentIndex != old(currentIndex) ==> !isFlipped
      ensures currentIndex == old(currentIndex) ==> isFlipped == old(isFlipped)
    {
      var req := BeginDelete(n, confirmed);
      if req.Some? {
        DeleteResolved(req.value, success);
        if old(currentIndex) >= 0 {
          ResolvedInPlace(old(currentIndex), n, success);
        }
      }
    }

    /** `onFlip`. */
    method Flip()
      modifies this
      ensures currentIndex == old(currentIndex) && isFlipped == !old(isFlipped)
    {
      isFlipped := !isFlipped;
    }
  }
}
