/** The certificate page viewer of `cert-utils.js`: a cyclic index into the page images,
    the page numbers the previous/next buttons advertise, the auto-pagination latch and
    its timers, and the hiding of blank sections.

    Timers and DOM events are explicit method calls: `WindowLoaded` is the window `load`
    event, `StartDelayElapsed` the 1-second `setTimeout`, `Tick` one 5-second interval
    callback, `Click` a user click on a wired element. */
module CertUtils {
  import opened Wrappers
  import opened Text

  // ---------------------------------------------------------------------------
  // Page arithmetic
  // ---------------------------------------------------------------------------

  /** Where `changeImage` puts an index that stepped to `i`: below the first page it
      jumps to the last, past the last it jumps to the first. */
  function Wrap(i: int, n: int): (r: int)
    requires n > 0
    ensures 0 <= r < n
    ensures 0 <= i < n ==> r == i
  {
    if i < 0 then n - 1 else if i >= n then 0 else i
  }

  /** The index after `changeImage(1)`: the successor modulo the page count. */
  function NextIndex(i: int, n: int): (r: int)
    requires n > 0
    ensures 0 <= r < n
    ensures 0 <= i < n ==> r == (i + 1) % n
  {
    Wrap(i + 1, n)
  }

  /** The index after `changeImage(-1)`: the predecessor modulo the page count. */
  function PrevIndex(i: int, n: int): (r: int)
    requires n > 0
    ensures 0 <= r < n
    ensures 0 <= i < n ==> r == (i - 1 + n) % n
  {
    Wrap(i - 1, n)
  }

  /** One step in either direction is addition modulo the page count. */
  lemma StepIsModular(i: int, d: int, n: int)
    requires 0 <= i < n
    requires d == 1 || d == -1
    ensures Wrap(i + d, n) == (i + d + n) % n
  {
  }

  /** Stepping past either end wraps to the other end. */
  lemma WrapAround(n: int)
    requires n > 0
    ensures NextIndex(n - 1, n) == 0
    ensures PrevIndex(0, n) == n - 1
  {
  }

  /** `changeImage(-1)` undoes `changeImage(1)`, and the other way round. */
  lemma PrevUndoesNext(i: int, n: int)
    requires 0 <= i < n
    ensures PrevIndex(NextIndex(i, n), n) == i
    ensures NextIndex(PrevIndex(i, n), n) == i
  {
  }

  /** The index after `k` calls of `changeImage(1)` starting from `i`. */
  function Advance(i: int, n: int, k: nat): (r: int)
    requires 0 <= i < n
    ensures 0 <= r < n
  {
    if k == 0 then i else NextIndex(Advance(i, n, k - 1), n)
  }

  /** `k` forward steps add `k` modulo the page count. */
  lemma {:induction false} AdvanceIsModular(i: int, n: int, k: nat)
    requires 0 <= i < n
    ensures Advance(i, n, k) == (i + k) % n
  {
    if k > 0 {
      var j := Advance(i, n, k - 1);
      AdvanceIsModular(i, n, k - 1);
      StepIsModular(j, 1, n);
      ModSuccessor(i + k - 1, n);
    }
  }

  /** `a` copies of a positive `n` are at least `n`. */
  lemma MulAtLeast(a: int, n: int)
    requires a >= 1 && n > 0
    ensures a * n >= n
  {
  }

  /** The remainder is determined by any quotient-remainder split of `x`. */
  lemma ModUnique(x: int, n: int, q: int, r: int)
    requires n > 0 && 0 <= r < n && x == q * n + r
    ensures x % n == r
  {
    var q', r' := x / n, x % n;
    assert x == q' * n + r';
    var d := q - q';
    assert d * n == q * n - q' * n;
    assert d * n == r' - r;
    if d >= 1 {
      MulAtLeast(d, n);
    }
  }

  /** `(x % n + 1 + n) % n == (x + 1) % n` for a non-negative `x`. */
  lemma ModSuccessor(x: int, n: int)
    requires x >= 0 && n > 0
    ensures (x % n + 1 + n) % n == (x + 1) % n
  {
    var q, r := x / n, x % n;
    assert x == q * n + r;
    if r + 1 < n {
      ModUnique(r + 1 + n, n, 1, r + 1);
      ModUnique(x + 1, n, q, r + 1);
    } else {
      ModUnique(r + 1 + n, n, 2, 0);
      ModUnique(x + 1, n, q + 1, 0);
    }
  }

  /** Adding `k` to a position modulo `n` leaves it in place exactly when `n` divides `k`. */
  lemma ModFixedPoint(i: int, n: int, k: nat)
    requires 0 <= i < n
    ensures (i + k) % n == i <==> k % n == 0
  {
    var q, r := k / n, k % n;
    var m := q * n;
    assert k == m + r;
    if i + r < n {
      ModUnique(i + k, n, q, i + r);
    } else {
      assert (q + 1) * n == m + n;
      ModUnique(i + k, n, q + 1, i + r - n);
    }
  }

  /** Forward steps return to the starting page exactly when their number is a
      multiple of the page count. */
  lemma AdvanceCycle(i: int, n: int, k: nat)
    requires 0 <= i < n
    ensures Advance(i, n, k) == i <==> k % n == 0
  {
    AdvanceIsModular(i, n, k);
    ModFixedPoint(i, n, k);
  }

  /** JavaScript's `%`: the remainder has the sign of the dividend. */
  function JsRem(a: int, b: int): (r: int)
    requires b > 0
    ensures a >= 0 ==> 0 <= r < b
    ensures a < 0 ==> -b < r <= 0
    ensures (a - r) % b == 0
  {
    if a >= 0 then
      ModUnique(a - a % b, b, a / b, 0);
      a % b
    else
      ModUnique(a + (-a) % b, b, -((-a) / b), 0);
      -((-a) % b)
  }

  /** The 1-based page number `updateButtonTitles` puts on the next button: one more
      than a 0-based page congruent to `i + 1`. */
  function NextPage(i: int, n: int): (p: int)
    requires n > 0
    ensures i + 1 >= 0 ==> 1 <= p <= n
    ensures (i + 1 - (p - 1)) % n == 0
  {
    JsRem(i + 1, n) + 1
  }

  /** The 1-based page number `updateButtonTitles` puts on the previous button: one
      more than a 0-based page congruent to `i - 1`. */
  function PrevPage(i: int, n: int): (p: int)
    requires n > 0
    ensures i - 1 + n >= 0 ==> 1 <= p <= n
    ensures (i - 1 + n - (p - 1)) % n == 0
  {
    JsRem(i - 1 + n, n) + 1
  }

  /** The buttons advertise a page in 1..n, and it is the page the corresponding
      `changeImage` call lands on (its index plus one). */
  lemma TitlesAdvertiseDestination(i: int, n: int)
    requires 0 <= i < n
    ensures 1 <= NextPage(i, n) <= n && NextPage(i, n) == NextIndex(i, n) + 1
    ensures 1 <= PrevPage(i, n) <= n && PrevPage(i, n) == PrevIndex(i, n) + 1
  {
  }

  // ---------------------------------------------------------------------------
  // The viewer
  // ---------------------------------------------------------------------------

  /** The elements `initializeAutoPagination` wires a stop listener to. */
  datatype Target = PrevButton | NextButton | ImageSlider

  /** The page number and page count a button title names ("View next page 3/5"). */
  datatype PageLabel = PageLabel(page: int, total: int)

  /** The page-template globals `images` and `currentIndex` together with the
      module state of `cert-utils.js` and what it writes into the page. */
  class Viewer<Img> {
    /** The page images, fixed when the page is built. */
    const images: seq<Img>
    /** Whether the page has the previous button, next button and image slider. */
    const hasPrevBtn: bool
    const hasNextBtn: bool
    const hasSlider: bool

    var currentIndex: int
    /** The `src` of the image slider. */
    var shown: Img
    /** The titles of the previous and next buttons, once set. */
    var prevTitle: Option<PageLabel>
    var nextTitle: Option<PageLabel>

    /** `autoPaginationInterval`: the stored interval handle, or null. */
    var autoPaginationInterval: Option<nat>
    var autoPaginationEnabled: bool
    /** Handles of the intervals the browser still fires. */
    var running: set<nat>
    /** The handle the next `setInterval` returns (handles are positive). */
    var nextHandle: nat

    /** Elements carrying the stop listener. */
    var clickListeners: set<Target>
    /** The `load` listeners registered; each call of `initializeAutoPagination` on a
        multi-page certificate adds a new closure, so they accumulate. */
    var loadListeners: nat
    /** One-second start timeouts scheduled and not yet run. */
    var pendingStarts: nat

    /** The wired elements that exist on the page. */
    function PresentTargets(): set<Target>
    {
      (if hasPrevBtn then {PrevButton} else {}) +
      (if hasNextBtn then {NextButton} else {}) +
      (if hasSlider then {ImageSlider} else {})
    }

    /** Everything except that the button titles match the current index. */
    ghost predicate ValidExceptTitles()
      reads this
    {
      |images| > 0 &&
      0 <= currentIndex < |images| &&
      shown == images[currentIndex] &&
      (prevTitle.Some? ==> hasPrevBtn) &&
      (nextTitle.Some? ==> hasNextBtn) &&
      (autoPaginationInterval.Some? ==> autoPaginationInterval.value in running) &&
      nextHandle > 0 &&
      (forall h :: h in running ==> 0 < h < nextHandle) &&
      (!autoPaginationEnabled ==> autoPaginationInterval.None?) &&
      clickListeners <= PresentTargets() &&
      (clickListeners != {} ==> |images| > 1) &&
      (loadListeners > 0 ==> |images| > 1) &&
      (pendingStarts > 0 ==> loadListeners > 0)
    }

    /** A set button title names the page its button leads to. */
    ghost predicate TitlesAccurate()
      reads this
      requires ValidExceptTitles()
    {
      (prevTitle.Some? ==> prevTitle.value == PageLabel(PrevPage(currentIndex, |images|), |images|)) &&
      (nextTitle.Some? ==> nextTitle.value == PageLabel(NextPage(currentIndex, |images|), |images|))
    }

    ghost predicate Valid()
      reads this
    {
      ValidExceptTitles() && TitlesAccurate()
    }

    /** The page as built: first image shown, auto-advance enabled, nothing wired. */
    constructor (images: seq<Img>, hasPrevBtn: bool, hasNextBtn: bool, hasSlider: bool)
      requires |images| > 0
      ensures Valid()
      ensures this.images == images && this.hasPrevBtn == hasPrevBtn
      ensures this.hasNextBtn == hasNextBtn && this.hasSlider == hasSlider
      ensures currentIndex == 0 && shown == images[0]
      ensures prevTitle.None? && nextTitle.None?
      ensures autoPaginationInterval.None? && autoPaginationEnabled && running == {}
      ensures clickListeners == {} && loadListeners == 0 && pendingStarts == 0 && nextHandle == 1
    {
      this.images := images;
      this.hasPrevBtn := hasPrevBtn;
      this.hasNextBtn := hasNextBtn;
      this.hasSlider := hasSlider;
      currentIndex := 0;
      shown := images[0];
      prevTitle, nextTitle := None, None;
      autoPaginationInterval := None;
      autoPaginationEnabled := true;
      running := {};
      nextHandle := 1;
      clickListeners := {};
      loadListeners := 0;
      pendingStarts := 0;
    }

    /** `updateButtonTitles`: each present button names the page it leads to. */
    method UpdateButtonTitles()
      requires ValidExceptTitles()
      modifies this`prevTitle, this`nextTitle
      ensures Valid()
      ensures prevTitle == if hasPrevBtn then Some(PageLabel(PrevPage(currentIndex, |images|), |images|)) else old(prevTitle)
      ensures nextTitle == if hasNextBtn then Some(PageLabel(NextPage(currentIndex, |images|), |images|)) else old(nextTitle)
    {
      var totalPages := |images|;
      var nextPage := NextPage(currentIndex, totalPages);
      var prevPage := PrevPage(currentIndex, totalPages);
      if hasPrevBtn {
        prevTitle := Some(PageLabel(prevPage, totalPages));
      }
      if hasNextBtn {
        nextTitle := Some(PageLabel(nextPage, totalPages));
      }
    }

    /** `changeImage(direction)`: move the index, wrapping at either end, show that
        image and relabel the buttons. */
    method ChangeImage(direction: int)
      requires Valid()
      modifies this`currentIndex, this`shown, this`prevTitle, this`nextTitle
      ensures Valid()
      ensures currentIndex == Wrap(old(currentIndex) + direction, |images|)
      ensures shown == images[currentIndex]
      ensures prevTitle == if hasPrevBtn then Some(PageLabel(PrevPage(currentIndex, |images|), |images|)) else old(prevTitle)
      ensures nextTitle == if hasNextBtn then Some(PageLabel(NextPage(currentIndex, |images|), |images|)) else old(nextTitle)
    {
      currentIndex := currentIndex + direction;
      if currentIndex < 0 {
        currentIndex := |images| - 1;
      } else if currentIndex >= |images| {
        currentIndex := 0;
      }
      shown := images[currentIndex];
      UpdateButtonTitles();
    }

    /** `stopAutoPagination`: only when an interval is stored does it cancel it and
        clear the latch; otherwise it changes nothing. */
    method StopAutoPagination()
      requires Valid()
      modifies this`autoPaginationInterval, this`autoPaginationEnabled, this`running
      ensures Valid()
      ensures autoPaginationEnabled ==> old(autoPaginationEnabled)
      ensures old(autoPaginationInterval).None? ==> unchanged(this)
      ensures old(autoPaginationInterval).Some? ==>
        autoPaginationInterval.None? && !autoPaginationEnabled &&
        running == old(running) - {old(autoPaginationInterval).value}
    {
      if autoPaginationInterval.Some? {
        running := running - {autoPaginationInterval.value};
        autoPaginationInterval := None;
        autoPaginationEnabled := false;
      }
    }

    /** `startAutoPagination`: while enabled, start a new interval and store its
        handle (a handle stored before is overwritten, its interval keeps running). */
    method StartAutoPagination()
      requires Valid()
      modifies this`autoPaginationInterval, this`running, this`nextHandle
      ensures Valid()
      ensures !autoPaginationEnabled ==> unchanged(this)
      ensures autoPaginationEnabled ==>
        old(nextHandle) !in old(running) &&
        autoPaginationInterval == Some(old(nextHandle)) &&
        running == old(running) + {old(nextHandle)} &&
        nextHandle == old(nextHandle) + 1
    {
      if !autoPaginationEnabled {
        return;
      }
      var handle := nextHandle;
      nextHandle := nextHandle + 1;
      running := running + {handle};
      autoPaginationInterval := Some(handle);
    }

    /** One callback of the running interval `h`: while enabled, advance one page
        without touching the latch; once disabled, call `stopAutoPagination`, which
        has no handle left to cancel, so nothing changes. */
    method Tick(h: nat)
      requires Valid() && h in running
      modifies this`currentIndex, this`shown, this`prevTitle, this`nextTitle
      modifies this`autoPaginationInterval, this`autoPaginationEnabled, this`running
      ensures Valid()
      ensures autoPaginationEnabled == old(autoPaginationEnabled)
      ensures !old(autoPaginationEnabled) ==> unchanged(this)
      ensures old(autoPaginationEnabled) ==>
        currentIndex == NextIndex(old(currentIndex), |images|) && shown == images[currentIndex] &&
        autoPaginationEnabled && autoPaginationInterval == old(autoPaginationInterval) &&
        running == old(running)
      ensures old(autoPaginationEnabled) ==>
        prevTitle == if hasPrevBtn then Some(PageLabel(PrevPage(currentIndex, |images|), |images|)) else old(prevTitle)
      ensures old(autoPaginationEnabled) ==>
        nextTitle == if hasNextBtn then Some(PageLabel(NextPage(currentIndex, |images|), |images|)) else old(nextTitle)
    {
      if !autoPaginationEnabled {
        StopAutoPagination();
        return;
      }
      ChangeImage(1);
    }

    /** `initializeAutoPagination`: with a single image nothing is wired; otherwise
        every present element gets the stop listener (the same function, so a second
        registration is merged) and one more `load` listener is registered. */
    method InitializeAutoPagination()
      requires Valid()
      modifies this`clickListeners, this`loadListeners
      ensures Valid()
      ensures |images| <= 1 ==> unchanged(this)
      ensures |images| > 1 ==> clickListeners == old(clickListeners) + PresentTargets() && loadListeners == old(loadListeners) + 1
    {
      if |images| <= 1 {
        return;
      }
      if hasPrevBtn {
        clickListeners := clickListeners + {PrevButton};
      }
      if hasNextBtn {
        clickListeners := clickListeners + {NextButton};
      }
      if hasSlider {
        clickListeners := clickListeners + {ImageSlider};
      }
      loadListeners := loadListeners + 1;
    }

    /** The window `load` event: each registered listener schedules a delayed start. */
    method WindowLoaded()
      requires Valid()
      modifies this`pendingStarts
      ensures Valid()
      ensures pendingStarts == old(pendingStarts) + loadListeners
    {
      pendingStarts := pendingStarts + loadListeners;
    }

    /** The one-second start timeout runs `startAutoPagination`. */
    method StartDelayElapsed()
      requires Valid() && pendingStarts > 0
      modifies this`pendingStarts, this`autoPaginationInterval, this`running, this`nextHandle
      ensures Valid()
      ensures pendingStarts == old(pendingStarts) - 1
      ensures !autoPaginationEnabled ==>
        autoPaginationInterval == old(autoPaginationInterval) && running == old(running) && nextHandle == old(nextHandle)
      ensures autoPaginationEnabled ==>
        autoPaginationInterval == Some(old(nextHandle)) && running == old(running) + {old(nextHandle)} &&
        nextHandle == old(nextHandle) + 1
    {
      pendingStarts := pendingStarts - 1;
      StartAutoPagination();
    }

    /** A user click on `t`: its stop listener, if wired, runs `stopAutoPagination`.
        Before the interval has started this disables nothing. */
    method Click(t: Target)
      requires Valid()
      modifies this`autoPaginationInterval, this`autoPaginationEnabled, this`running
      ensures Valid()
      ensures autoPaginationEnabled ==> old(autoPaginationEnabled)
      ensures t !in clickListeners || old(autoPaginationInterval).None? ==> unchanged(this)
      ensures t in clickListeners && old(autoPaginationInterval).Some? ==>
        !autoPaginationEnabled && autoPaginationInterval.None? &&
        running == old(running) - {old(autoPaginationInterval).value}
    {
      if t in clickListeners {
        StopAutoPagination();
      }
    }

    /** The stop the listeners at cert-utils.js:139 are meant to perform ("stop
        auto-pagination on user interaction"): clear the latch on every click, and
        cancel the interval if one is stored. */
    method StopAutoPaginationCorrected()
      requires Valid()
      modifies this`autoPaginationInterval, this`autoPaginationEnabled, this`running
      ensures Valid()
      ensures !autoPaginationEnabled && autoPaginationInterval.None?
      ensures running == old(running) - (if old(autoPaginationInterval).Some? then {old(autoPaginationInterval).value} else {})
    {
      if autoPaginationInterval.Some? {
        running := running - {autoPaginationInterval.value};
        autoPaginationInterval := None;
      }
      autoPaginationEnabled := false;
    }
  }

  // ---------------------------------------------------------------------------
  // Section visibility
  // ---------------------------------------------------------------------------

  /** A page section (summary or abstract) and the text of its content element. */
  class Section {
    /** The text of the content element, or None when the page lacks it. */
    const content: Option<string>
    var displayed: bool

    constructor (content: Option<string>)
      ensures this.content == content && displayed
    {
      this.content := content;
      displayed := true;
    }
  }

  /** `adjustContentDisplay`: a section whose content is blank is hidden; any other
      section is left as it is. */
  method AdjustContentDisplay(content: string, section: Section)
    modifies section`displayed
    ensures !IsBlank(content) ==> section.displayed == old(section.displayed)
    ensures IsBlank(content) ==> !section.displayed
  {
    if IsBlank(content) {
      section.displayed := false;
      return;
    }
  }

  /** `initializeCertificateSections`: adjust the summary and abstract sections that
      exist with their content, then label the buttons. */
  method InitializeCertificateSections<Img>(summary: Section?, abstractSection: Section?, viewer: Viewer?<Img>)
    requires viewer != null ==> viewer.Valid()
    modifies summary, abstractSection, viewer
    ensures viewer != null ==> viewer.Valid()
    ensures summary != null && summary.content.Some? && IsBlank(summary.content.value) ==> !summary.displayed
    ensures abstractSection != null && abstractSection.content.Some? && IsBlank(abstractSection.content.value) ==> !abstractSection.displayed
    ensures summary != null && (summary.content.None? || !IsBlank(summary.content.value)) ==>
      summary.displayed == old(summary.displayed)
    ensures abstractSection != null && (abstractSection.content.None? || !IsBlank(abstractSection.content.value)) ==>
      abstractSection.displayed == old(abstractSection.displayed)
    ensures viewer != null ==>
      viewer.currentIndex == old(viewer.currentIndex) && viewer.shown == old(viewer.shown) &&
      viewer.autoPaginationInterval == old(viewer.autoPaginationInterval) &&
      viewer.autoPaginationEnabled == old(viewer.autoPaginationEnabled) &&
      viewer.running == old(viewer.running) && viewer.nextHandle == old(viewer.nextHandle) &&
      viewer.clickListeners == old(viewer.clickListeners) && viewer.loadListeners == old(viewer.loadListeners) &&
      viewer.pendingStarts == old(viewer.pendingStarts)
    ensures viewer != null && viewer.hasPrevBtn ==> viewer.prevTitle == Some(PageLabel(PrevPage(viewer.currentIndex, |viewer.images|), |viewer.images|))
    ensures viewer != null && viewer.hasNextBtn ==> viewer.nextTitle == Some(PageLabel(NextPage(viewer.currentIndex, |viewer.images|), |viewer.images|))
  {
    if summary != null && summary.content.Some? {
      AdjustContentDisplay(summary.content.value, summary);
    }
    if abstractSection != null && abstractSection.content.Some? {
      AdjustContentDisplay(abstractSection.content.value, abstractSection);
    }
    if viewer != null && |viewer.images| > 0 {
      viewer.UpdateButtonTitles();
    }
  }

  // ---------------------------------------------------------------------------
  // Scenarios
  // ---------------------------------------------------------------------------

  /** Four pages; the reader clicks "next" 0.2 s after opening the page, before the
      interval exists. As written the stop listener finds no handle, so the latch stays
      set and the first 5-second tick still advances the page. */
  method EarlyClickStillAutoAdvances() returns (beforeTick: int, afterTick: int)
    ensures beforeTick == 1 && afterTick == 2
  {
    var v := new Viewer<int>([10, 20, 30, 40], true, true, true);
    v.InitializeAutoPagination();
    v.Click(NextButton);
    v.ChangeImage(1);
    v.WindowLoaded();
    v.StartDelayElapsed();
    beforeTick := v.currentIndex;
    v.Tick(v.autoPaginationInterval.value);
    afterTick := v.currentIndex;
  }

  /** The same session with the corrected stop: the early click clears the latch, the
      delayed start then starts nothing, and no interval exists that could tick. */
  method EarlyClickCorrectedNeverAutoAdvances() returns (timers: set<nat>, enabled: bool)
    ensures timers == {} && !enabled
  {
    var v := new Viewer<int>([10, 20, 30, 40], true, true, true);
    v.InitializeAutoPagination();
    v.StopAutoPaginationCorrected();
    v.ChangeImage(1);
    v.WindowLoaded();
    v.StartDelayElapsed();
    timers, enabled := v.running, v.autoPaginationEnabled;
  }

  /** Four pages and `initializeAutoPagination` called twice: the `load` event schedules
      two starts, two intervals run and one 5-second period advances two pages. A click
      then cancels only the interval whose handle is stored; the other keeps running. */
  method DoubleInitializeAdvancesTwice() returns (afterPeriod: int, leftRunning: set<nat>)
    ensures afterPeriod == 2 && leftRunning == {1}
  {
    var v := new Viewer<int>([10, 20, 30, 40], true, true, true);
    v.InitializeAutoPagination();
    v.InitializeAutoPagination();
    v.WindowLoaded();
    v.StartDelayElapsed();
    v.StartDelayElapsed();
    v.Tick(1);
    v.Tick(2);
    afterPeriod := v.currentIndex;
    v.Click(NextButton);
    leftRunning := v.running;
  }

  /** A single-page certificate: no stop listener, no load listener, so the window
      `load` event schedules no start. */
  method SinglePageWiresNothing() returns (listeners: set<Target>, starts: nat)
    ensures listeners == {} && starts == 0
  {
    var v := new Viewer<int>([10], true, true, true);
    v.InitializeAutoPagination();
    v.WindowLoaded();
    listeners, starts := v.clickListeners, v.pendingStarts;
  }
}
