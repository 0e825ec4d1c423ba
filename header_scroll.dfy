/** The header's hide-on-scroll behaviour (`headerBehavior` in app.js and in
    main.js, whose `onScroll` rules agree): once per animation frame the header
    slides out of view when the page has moved down past the threshold since
    the previous frame, slides back otherwise, and carries the `scrolled` class
    whenever the page is past the threshold. The two files differ in which
    offset a frame sees: app.js hands the frame the offset read by the scroll
    event that scheduled it, main.js reads it when the frame runs.
    Offsets are `real`, as `window.pageYOffset` is fractional on zoomed pages. */
module HeaderScroll {

  /** `scrollThreshold`, in pixels. */
  const ScrollThreshold: real := 100.0

  /** What `onScroll` reads and writes: the offset remembered from the previous
      frame, whether the header is translated out of view, and the `scrolled` class. */
  datatype HeaderView = HeaderView(lastScrollTop: real, hidden: bool, scrolled: bool)

  /** One frame of `onScroll` at offset `scrollTop`. The remembered offset is
      never negative, and the header is only ever hidden while the page moves
      down and is past the threshold (so a hidden header is also `scrolled`). */
  function Step(h: HeaderView, scrollTop: real): (r: HeaderView)
    ensures r.lastScrollTop >= 0.0
    ensures r.hidden ==> scrollTop > h.lastScrollTop && r.scrolled
    ensures !r.scrolled ==> !r.hidden
  {
    HeaderView(if scrollTop <= 0.0 then 0.0 else scrollTop,
               scrollTop > h.lastScrollTop && scrollTop > ScrollThreshold,
               scrollTop > ScrollThreshold)
  }

  /** The frames `offsets` in order, from `h`. */
  function Run(h: HeaderView, offsets: seq<real>): HeaderView
  {
    if offsets == [] then h else Step(Run(h, offsets[..|offsets| - 1]), offsets[|offsets| - 1])
  }

  /** Only the last two frames matter: after two or more frames the header is
      hidden exactly when the last offset exceeds the threshold and the
      (clamped) offset before it, whatever happened earlier. */
  lemma {:induction false} RunDependsOnLastTwo(h: HeaderView, offsets: seq<real>)
    requires |offsets| >= 2
    ensures var n := |offsets|;
            var before := if offsets[n - 2] <= 0.0 then 0.0 else offsets[n - 2];
            Run(h, offsets) == HeaderView(if offsets[n - 1] <= 0.0 then 0.0 else offsets[n - 1],
                                          offsets[n - 1] > before && offsets[n - 1] > ScrollThreshold,
                                          offsets[n - 1] > ScrollThreshold)
  {
    var n := |offsets|;
    assert offsets[..n - 1][..n - 2] == offsets[..n - 2];
    assert Run(h, offsets[..n - 1]).lastScrollTop == if offsets[n - 2] <= 0.0 then 0.0 else offsets[n - 2];
  }

  /** A frame that finds the page where the previous frame left it brings the
      header back. */
  lemma {:induction false} PauseReveals(h: HeaderView, scrollTop: real)
    ensures !Step(Step(h, scrollTop), scrollTop).hidden
  {
    var once := Step(h, scrollTop);
    assert once.lastScrollTop >= scrollTop;
  }

  /** The header element's state as the closures in `headerBehavior` keep it,
      with the frame scheduling: `ticking` says a frame is scheduled, and
      `queued` is the offset app.js hands to that frame. */
  class HeaderBehavior {
    var lastScrollTop: real
    var hidden: bool
    var scrolled: bool
    var ticking: bool
    var queued: real

    function View(): HeaderView
      reads this
    {
      HeaderView(lastScrollTop, hidden, scrolled)
    }

    /** The invariant every frame keeps: the remembered offset is not negative. */
    ghost predicate Valid()
      reads this
    {
      lastScrollTop >= 0.0
    }

    /** `let lastScrollTop = 0; let ticking = false`. The header's transform
        and `scrolled` class are whatever the markup gave it until the first
        frame. */
    constructor (markup: HeaderView)
      ensures Valid() && View() == markup.(lastScrollTop := 0.0) && !ticking
    {
      lastScrollTop, hidden, scrolled := 0.0, markup.hidden, markup.scrolled;
      ticking, queued := false, 0.0;
    }

    /** `onScroll(scrollTop)`: hide when moving down past the threshold, show
        otherwise; `scrolled` exactly past the threshold; remember the offset,
        clamped at 0; the frame is no longer pending. */
    method OnScroll(scrollTop: real)
      modifies this
      ensures Valid()
      ensures View() == Step(old(View()), scrollTop)
      ensures hidden <==> scrollTop > old(lastScrollTop) && scrollTop > ScrollThreshold
      ensures scrolled <==> scrollTop > ScrollThreshold
      ensures lastScrollTop == if scrollTop <= 0.0 then 0.0 else scrollTop
      ensures !ticking && queued == old(queued)
    {
      if scrollTop > lastScrollTop && scrollTop > ScrollThreshold {
        hidden := true;
      } else {
        hidden := false;
      }
      if scrollTop > ScrollThreshold {
        scrolled := true;
      } else {
        scrolled := false;
      }
      lastScrollTop := if scrollTop <= 0.0 then 0.0 else scrollTop;
      ticking := false;
    }

    /** The scroll listener of app.js: it reads the offset, and only when no
        frame is pending schedules one with that offset. Later events before
        the frame runs are dropped, so the frame sees the first offset. */
    method OnScrollEvent(offset: real)
      modifies this
      ensures View() == old(View()) && ticking
      ensures queued == if old(ticking) then old(queued) else offset
    {
      if !ticking {
        queued := offset;
        ticking := true;
      }
    }

    /** The frame app.js scheduled: `onScroll` on the queued offset. */
    method OnFrame()
      requires ticking
      modifies this
      ensures Valid() && !ticking
      ensures View() == Step(old(View()), old(queued))
    {
      OnScroll(queued);
    }

    /** The scroll listener of main.js: it only schedules a frame, and the
        frame (`OnScroll`) reads the offset when it runs. */
    method OnScrollEventDeferred()
      modifies this
      ensures View() == old(View()) && ticking && queued == old(queued)
    {
      if !ticking {
        ticking := true;
      }
    }

    /** The `load` listener of app.js (main.js has none): a page opened past
        the threshold gets `scrolled` at once; the class is never removed here. */
    method OnLoad(currentScroll: real)
      requires Valid()
      modifies this
      ensures Valid()
      ensures scrolled == (old(scrolled) || currentScroll > ScrollThreshold)
      ensures lastScrollTop == old(lastScrollTop) && hidden == old(hidden)
      ensures ticking == old(ticking) && queued == old(queued)
    {
      if currentScroll > ScrollThreshold {
        scrolled := true;
      }
    }
  }
}
