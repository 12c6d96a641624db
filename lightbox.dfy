/**
 * The gallery lightbox of the generated site and the focus trap it uses:
 * opening an image, moving between images with the arrow keys, closing
 * with Escape, and keeping Tab inside the open lightbox.
 */
module Lightbox {
  import opened Wrappers

  /** The elements whose focus matters here. */
  datatype Element = CloseButton | GalleryLink(index: nat) | Body | Other(id: nat)

  /** No element occurs twice (as in the list `querySelectorAll` returns). */
  predicate Distinct(s: seq<Element>) {
    forall a, b :: 0 <= a < b < |s| ==> s[a] != s[b]
  }

  /** The first position of `e` in `s`. */
  function IndexOf(s: seq<Element>, e: Element): (r: nat)
    requires e in s
    ensures r < |s| && s[r] == e
    ensures forall j :: 0 <= j < r ==> s[j] != e
  {
    if s[0] == e then 0 else 1 + IndexOf(s[1..], e)
  }

  // ----- the focus trap -----

  /**
   * The trap's key listener: the element it moves the focus to after
   * preventing the default, or `None` when it lets the key through. Tab on
   * the last element goes to the first, Shift+Tab on the first to the last.
   */
  function TrapFocusKey(focusables: seq<Element>, active: Element, key: string, shift: bool): (r: Option<Element>)
    requires |focusables| > 0
    ensures r.Some? ==> key == "Tab" && r.value in focusables
    ensures key == "Tab" && !shift ==> (r.Some? <==> active == focusables[|focusables| - 1])
    ensures key == "Tab" && shift ==> (r.Some? <==> active == focusables[0])
    ensures key == "Tab" && !shift && active == focusables[|focusables| - 1] ==> r == Some(focusables[0])
    ensures key == "Tab" && shift && active == focusables[0] ==> r == Some(focusables[|focusables| - 1])
  {
    var first := focusables[0];
    var last := focusables[|focusables| - 1];
    if key != "Tab" then None
    else if shift then (if active == first then Some(last) else None)
    else if active == last then Some(first)
    else None
  }

  /**
   * The position of the focus after Tab (or Shift+Tab) from position `i`
   * of the container's focusable elements: where the trap sends it, or the
   * next (previous) element in document order when the trap lets the key
   * through.
   */
  function FocusAfterTab(focusables: seq<Element>, i: nat, shift: bool): (j: int)
    requires Distinct(focusables) && i < |focusables|
    ensures 0 <= j < |focusables|
    ensures !shift ==> j == if i == |focusables| - 1 then 0 else i + 1
    ensures shift ==> j == if i == 0 then |focusables| - 1 else i - 1
  {
    match TrapFocusKey(focusables, focusables[i], "Tab", shift)
    case Some(e) => IndexOf(focusables, e)
    case None => if shift then i - 1 else i + 1
  }

  /** The focusable elements of the lightbox: its close button (the image is not focusable). */
  const LightboxFocusables: seq<Element> := [CloseButton]

  /** Inside the lightbox, Tab and Shift+Tab both keep the focus on the close button. */
  lemma TabStaysOnCloseButton(shift: bool)
    ensures TrapFocusKey(LightboxFocusables, CloseButton, "Tab", shift) == Some(CloseButton)
  {
  }

  // ----- the lightbox -----

  /** An attached trap listener: a fresh function each time, and the element its cleanup focuses. */
  datatype Trap = Trap(id: nat, restore: Element)

  /** `s` after `removeEventListener(t)`: every occurrence of `t` is gone, the rest keeps its order. */
  function Without(s: seq<Trap>, t: Trap): (r: seq<Trap>)
    ensures forall x :: x in r <==> x in s && x != t
    ensures t !in s ==> r == s
    ensures |r| <= |s|
  {
    if s == [] then []
    else if s[0] == t then Without(s[1..], t)
    else [s[0]] + Without(s[1..], t)
  }

  /**
   * The gallery's lightbox: the image shown, whether it is displayed, the
   * focus, the trap listeners attached to it and the cleanup that
   * `openLightbox` last stored.
   */
  class Lightbox {
    /** The number of gallery links. */
    const count: nat
    var currentIndex: nat
    var shown: bool
    var focused: Element
    var listeners: seq<Trap>
    var cleanup: Option<Trap>
    /** The identity the next trap listener gets. */
    var nextId: nat

    /**
     * The shown image exists, every listener so far has an identity below
     * `nextId`, an open lightbox has a stored cleanup, and a hidden close
     * button does not hold the focus.
     */
    ghost predicate Valid()
      reads this
    {
      && (shown ==> currentIndex < count)
      && (forall t :: t in listeners ==> t.id < nextId)
      && (cleanup.Some? ==> cleanup.value.id < nextId)
      && (shown ==> cleanup.Some?)
      && (!shown ==> focused != CloseButton)
    }

    /** The lightbox is appended hidden, with no trap; `focused` is the page's focus at that time. */
    constructor (count: nat, focused: Element)
      requires focused != CloseButton
      ensures Valid()
      ensures this.count == count && currentIndex == 0 && !shown && this.focused == focused
      ensures listeners == [] && cleanup == None && nextId == 0
    {
      this.count := count;
      currentIndex := 0;
      shown := false;
      this.focused := focused;
      listeners := [];
      cleanup := None;
      nextId := 0;
    }

    /**
     * `openLightbox(index)` as written: an index without a gallery link is
     * ignored; otherwise the image is shown, a new trap is attached with
     * the current focus as its restore target, its cleanup replaces the
     * stored one, and the close button takes the focus.
     */
    method OpenLightbox(index: int)
      requires Valid()
      modifies this
      ensures Valid()
      ensures !(0 <= index < count) ==>
                && currentIndex == old(currentIndex) && shown == old(shown) && focused == old(focused)
                && listeners == old(listeners) && cleanup == old(cleanup) && nextId == old(nextId)
      ensures 0 <= index < count ==>
                && currentIndex == index && shown && focused == CloseButton
                && listeners == old(listeners) + [Trap(old(nextId), old(focused))]
                && cleanup == Some(Trap(old(nextId), old(focused))) && nextId == old(nextId) + 1
    {
      if !(0 <= index < count) {
        return;
      }
      currentIndex := index;
      shown := true;
      var trap := Trap(nextId, focused);
      listeners := listeners + [trap];
      cleanup := Some(trap);
      nextId := nextId + 1;
      focused := CloseButton;
    }

    /**
     * `closeLightbox`: hides the lightbox (the hidden close button loses
     * the focus to the body), then runs the stored cleanup, if any: its
     * listener is removed and its restore target focused, which does
     * nothing when that target is the now hidden close button.
     */
    method CloseLightbox()
      requires Valid()
      modifies this
      ensures Valid()
      ensures !shown && currentIndex == old(currentIndex) && cleanup == old(cleanup) && nextId == old(nextId)
      ensures old(cleanup).None? ==> listeners == old(listeners)
      ensures old(cleanup).Some? ==> listeners == Without(old(listeners), old(cleanup).value)
      ensures focused == if old(cleanup).Some? && old(cleanup).value.restore != CloseButton
                         then old(cleanup).value.restore
                         else if old(focused) == CloseButton then Body else old(focused)
    {
      shown := false;
      if focused == CloseButton {
        focused := Body;
      }
      if cleanup.Some? {
        listeners := Without(listeners, cleanup.value);
        if cleanup.value.restore != CloseButton {
          focused := cleanup.value.restore;
        }
      }
    }

    /**
     * The document's key handler as written: nothing while the lightbox is
     * hidden; Escape closes it; the arrows open the next or previous image,
     * wrapping around. `handled` says whether the default was prevented.
     */
    method KeyDown(key: string) returns (handled: bool)
      requires Valid()
      modifies this
      ensures Valid()
      ensures handled <==> old(shown) && (key == "Escape" || key == "ArrowRight" || key == "ArrowLeft")
      ensures !handled ==>
                && currentIndex == old(currentIndex) && shown == old(shown) && focused == old(focused)
                && listeners == old(listeners) && cleanup == old(cleanup) && nextId == old(nextId)
      ensures handled && key == "Escape" ==>
                && !shown && listeners == Without(old(listeners), old(cleanup).value)
                && currentIndex == old(currentIndex) && cleanup == old(cleanup) && nextId == old(nextId)
                && focused == if old(cleanup).value.restore != CloseButton then old(cleanup).value.restore
                              else if old(focused) == CloseButton then Body else old(focused)
      ensures handled && key != "Escape" ==>
                && shown && focused == CloseButton
                && listeners == old(listeners) + [Trap(old(nextId), old(focused))]
                && cleanup == Some(Trap(old(nextId), old(focused))) && nextId == old(nextId) + 1
      ensures handled && key == "ArrowRight" ==> currentIndex == (old(currentIndex) + 1) % count
      ensures handled && key == "ArrowLeft" ==> currentIndex == (old(currentIndex) - 1 + count) % count
    {
      if !shown {
        return false;
      }
      if key == "Escape" {
        CloseLightbox();
        handled := true;
      } else if key == "ArrowRight" {
        OpenLightbox((currentIndex + 1) % count);
        handled := true;
      } else if key == "ArrowLeft" {
        OpenLightbox((currentIndex - 1 + count) % count);
        handled := true;
      } else {
        handled := false;
      }
    }

    /**
     * The invariant the corrected handlers keep: exactly one trap while
     * shown, none while hidden, and the trap restores the focus to an
     * element outside the lightbox.
     */
    ghost predicate Consistent()
      reads this
    {
      && Valid()
      && (shown ==> listeners == [cleanup.value] && cleanup.value.restore != CloseButton)
      && (!shown ==> listeners == [])
    }

    /**
     * `openLightbox` as evidently intended: when the lightbox is already
     * shown only the image changes; the trap, and with it the element the
     * focus returns to on closing, stay those of the first opening.
     */
    method OpenLightboxOnce(index: int)
      requires Consistent()
      modifies this
      ensures Consistent()
      ensures !(0 <= index < count) || old(shown) ==>
                listeners == old(listeners) && cleanup == old(cleanup) && nextId == old(nextId)
      ensures 0 <= index < count ==> currentIndex == index && shown && focused == CloseButton
      ensures !(0 <= index < count) ==> currentIndex == old(currentIndex) && shown == old(shown) && focused == old(focused)
      ensures 0 <= index < count && !old(shown) ==>
                && cleanup == Some(Trap(old(nextId), old(focused))) && listeners == [Trap(old(nextId), old(focused))]
                && nextId == old(nextId) + 1
    {
      if !(0 <= index < count) {
        return;
      }
      if shown {
        currentIndex := index;
        focused := CloseButton;
      } else {
        OpenLightbox(index);
      }
    }

    /**
     * The key handler on top of `OpenLightboxOnce`: Escape removes the one
     * trap and gives the focus back to the element focused before the
     * lightbox was first opened.
     */
    method KeyDownCorrected(key: string) returns (handled: bool)
      requires Consistent()
      modifies this
      ensures Consistent()
      ensures handled <==> old(shown) && (key == "Escape" || key == "ArrowRight" || key == "ArrowLeft")
      ensures !handled ==>
                && currentIndex == old(currentIndex) && shown == old(shown) && focused == old(focused)
                && listeners == old(listeners) && cleanup == old(cleanup) && nextId == old(nextId)
      ensures handled && key == "Escape" ==>
                && !shown && listeners == [] && focused == old(cleanup).value.restore
                && currentIndex == old(currentIndex) && cleanup == old(cleanup) && nextId == old(nextId)
      ensures handled && key != "Escape" ==>
                && shown && focused == CloseButton
                && listeners == old(listeners) && cleanup == old(cleanup) && nextId == old(nextId)
      ensures handled && key == "ArrowRight" ==> currentIndex == (old(currentIndex) + 1) % count
      ensures handled && key == "ArrowLeft" ==> currentIndex == (old(currentIndex) - 1 + count) % count
    {
      if !shown {
        return false;
      }
      if key == "Escape" {
        CloseLightbox();
        handled := true;
      } else if key == "ArrowRight" {
        OpenLightboxOnce((currentIndex + 1) % count);
        handled := true;
      } else if key == "ArrowLeft" {
        OpenLightboxOnce((currentIndex - 1 + count) % count);
        handled := true;
      } else {
        handled := false;
      }
    }
  }

  /**
   * Open the first image from its link, go to the next one, close: as
   * written, a trap listener stays attached and the focus ends on the body
   * instead of on the link.
   */
  method BrowseAndCloseAsWritten() returns (leftOver: nat, refocused: Element)
    ensures leftOver == 1 && refocused == Body
  {
    var lb := new Lightbox(2, GalleryLink(0));
    lb.OpenLightbox(0);
    var _ := lb.KeyDown("ArrowRight");
    assert lb.listeners == [Trap(0, GalleryLink(0)), Trap(1, CloseButton)];
    var _ := lb.KeyDown("Escape");
    leftOver := |lb.listeners|;
    refocused := lb.focused;
  }

  /** The same steps with the corrected handlers: no listener stays and the link has the focus again. */
  method BrowseAndCloseCorrected() returns (leftOver: nat, refocused: Element)
    ensures leftOver == 0 && refocused == GalleryLink(0)
  {
    var lb := new Lightbox(2, GalleryLink(0));
    lb.OpenLightboxOnce(0);
    var _ := lb.KeyDownCorrected("ArrowRight");
    var _ := lb.KeyDownCorrected("Escape");
    leftOver := |lb.listeners|;
    refocused := lb.focused;
  }
}
