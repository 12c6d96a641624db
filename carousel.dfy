/**
 * The testimonials carousel of the generated site: the slide shown, the
 * auto-rotation timer, and the keys that move between slides.
 */
module Carousel {
  import opened Wrappers

  /** JavaScript's `%`: the remainder takes the sign of the dividend (truncated division). */
  function JsRem(a: int, n: int): (r: int)
    requires n > 0
    ensures a >= 0 ==> 0 <= r < n && r == a % n
    ensures a < 0 ==> -n < r <= 0
  {
    if a >= 0 then a % n else -((-a) % n)
  }

  /** Unlike Dafny's `%`, negating the dividend negates the remainder. */
  lemma JsRemIsOdd(a: int, n: int)
    requires n > 0
    ensures JsRem(-a, n) == -JsRem(a, n)
  {
  }

  /**
   * A negative dividend leaves a negative remainder: `(-2) % 3` is `-2`,
   * not `1`. The carousel never meets this case, since it only shows the
   * slide before or after one in range, so `index + total` is at least
   * `total - 1`; the lemma records why `ShowSlide` needs that bound.
   */
  lemma JsRemOfNegative()
    ensures JsRem(-2, 3) == -2
  {
    assert 2 % 3 == 2;
  }

  /** The slide after `i` among `n`, back to the first after the last. */
  function NextIndex(i: nat, n: nat): (r: nat)
    requires i < n
    ensures r < n
    ensures r == if i == n - 1 then 0 else i + 1
  {
    (i + 1) % n
  }

  /** The slide before `i` among `n`, on to the last before the first. */
  function PrevIndex(i: nat, n: nat): (r: nat)
    requires i < n
    ensures r < n
    ensures r == if i == 0 then n - 1 else i - 1
  {
    (i - 1 + n) % n
  }

  lemma PrevUndoesNext(i: nat, n: nat)
    requires i < n
    ensures PrevIndex(NextIndex(i, n), n) == i && NextIndex(PrevIndex(i, n), n) == i
  {
  }

  /** The slide reached from `i` after `k` steps forward. */
  function Advance(i: nat, n: nat, k: nat): (r: nat)
    requires i < n
    ensures r < n
  {
    if k == 0 then i else NextIndex(Advance(i, n, k - 1), n)
  }

  /** Steps forward compose. */
  lemma {:induction false} AdvanceAdds(i: nat, n: nat, a: nat, b: nat)
    requires i < n
    ensures Advance(i, n, a + b) == Advance(Advance(i, n, a), n, b)
  {
    if b > 0 {
      AdvanceAdds(i, n, a, b - 1);
    }
  }

  /** Before the last slide, `k` steps forward go `k` slides on. */
  lemma {:induction false} AdvanceWithinRound(i: nat, n: nat, k: nat)
    requires i + k < n
    ensures Advance(i, n, k) == i + k
  {
    if k > 0 {
      AdvanceWithinRound(i, n, k - 1);
    }
  }

  /** A full round of auto-rotation comes back to the slide it started from. */
  lemma FullRoundReturns(i: nat, n: nat)
    requires i < n
    ensures Advance(i, n, n) == i
  {
    AdvanceWithinRound(i, n, n - 1 - i);
    assert Advance(i, n, n - i) == 0;
    AdvanceAdds(i, n, n - i, i);
    AdvanceWithinRound(0, n, i);
  }

  /** The carousel's state: the slide shown and the auto-rotation timer, if one runs. */
  class Carousel {
    /** The number of slides; a carousel without slides is never set up. */
    const total: nat
    var currentIndex: int
    var intervalId: Option<nat>
    /** The intervals the browser runs for this carousel. */
    var timers: set<nat>

    /** The slide is in range, and the only running interval is the one `intervalId` holds. */
    ghost predicate Valid()
      reads this
    {
      && total > 0 && 0 <= currentIndex < total
      && (intervalId.Some? ==> intervalId.value > 0)
      && timers == (if intervalId.Some? then {intervalId.value} else {})
    }

    /** Set-up: the first slide, then the auto-rotation started with timer `timerId`. */
    constructor (total: nat, timerId: nat)
      requires total > 0 && timerId > 0
      ensures Valid()
      ensures this.total == total && currentIndex == 0 && intervalId == Some(timerId) && timers == {timerId}
    {
      this.total := total;
      currentIndex := 0;
      intervalId := Some(timerId);
      timers := {timerId};
    }

    /** `showSlide(index)`: the index is taken modulo the number of slides, after adding it once. */
    method ShowSlide(index: int)
      requires total > 0
      modifies this
      ensures currentIndex == JsRem(index + total, total)
      ensures intervalId == old(intervalId) && timers == old(timers)
      ensures index + total >= 0 ==> 0 <= currentIndex < total
    {
      currentIndex := JsRem(index + total, total);
    }

    /** `nextSlide`: on to the next slide, wrapping after the last. */
    method NextSlide()
      requires Valid()
      modifies this
      ensures Valid()
      ensures currentIndex == NextIndex(old(currentIndex), total)
      ensures intervalId == old(intervalId) && timers == old(timers)
    {
      ShowSlide(currentIndex + 1);
    }

    /** `prevSlide`: back to the previous slide, wrapping before the first. */
    method PrevSlide()
      requires Valid()
      modifies this
      ensures Valid()
      ensures currentIndex == PrevIndex(old(currentIndex), total)
      ensures intervalId == old(intervalId) && timers == old(timers)
    {
      ShowSlide(currentIndex - 1);
    }

    /**
     * `startAutoRotate`: starts an interval, which the browser numbers
     * `timerId`, unless one already runs; so at most one interval ever runs.
     */
    method StartAutoRotate(timerId: nat)
      requires Valid() && timerId > 0
      modifies this
      ensures Valid() && |timers| <= 1
      ensures currentIndex == old(currentIndex)
      ensures intervalId == if old(intervalId).Some? then old(intervalId) else Some(timerId)
    {
      if intervalId.Some? {
        return;
      }
      intervalId := Some(timerId);
      timers := timers + {timerId};
    }

    /** `stopAutoRotate`: clears the running timer, if any, and returns the one it cleared. */
    method StopAutoRotate() returns (cleared: Option<nat>)
      requires Valid()
      modifies this
      ensures Valid()
      ensures cleared == old(intervalId)
      ensures currentIndex == old(currentIndex) && intervalId == None && timers == {}
    {
      cleared := intervalId;
      if intervalId.Some? {
        timers := timers - {intervalId.value};
      }
      intervalId := None;
    }

    /** A tick of the running timer: the next slide. */
    method Tick()
      requires Valid() && intervalId.Some?
      modifies this
      ensures Valid()
      ensures currentIndex == NextIndex(old(currentIndex), total)
      ensures intervalId == old(intervalId) && timers == old(timers)
    {
      NextSlide();
    }

    /** A key pressed while the carousel has focus; `handled` says whether its default action was prevented. */
    method KeyDown(key: string) returns (handled: bool)
      requires Valid()
      modifies this
      ensures Valid()
      ensures handled <==> key == "ArrowRight" || key == "ArrowLeft"
      ensures key == "ArrowRight" ==> currentIndex == NextIndex(old(currentIndex), total)
      ensures key == "ArrowLeft" ==> currentIndex == PrevIndex(old(currentIndex), total)
      ensures !handled ==> currentIndex == old(currentIndex)
      ensures intervalId == old(intervalId) && timers == old(timers)
    {
      if key == "ArrowRight" {
        NextSlide();
        handled := true;
      } else if key == "ArrowLeft" {
        PrevSlide();
        handled := true;
      } else {
        handled := false;
      }
    }
  }
}
