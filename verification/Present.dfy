/** The present loop's synchronisation objects. The driver calls carry the valid-usage
    rules as preconditions; between two calls the device may make any progress. */
module Present {
  import opened Basics

  /** A binary semaphore: its state and the operations queued on it. */
  datatype Semaphore = Semaphore(signalled: bool, signalPending: bool, waitPending: bool) {
    predicate Clean() {
      !signalled && !signalPending && !waitPending
    }
  }

  const UNSIGNALLED := Semaphore(false, false, false)

  /** Who has a swapchain image: the presentation engine, the application, or a present
      whose semaphore wait is still queued. */
  datatype Image = Free | Acquired | Presenting

  /** acquire_sem, fence, done_sems and the images, with the one submit in flight. */
  datatype State = State(acquire: Semaphore, fence: bool, done: seq<Semaphore>, images: seq<Image>, submit: Submit)

  datatype Submit = NoSubmit | Queued(index: nat) | Running(at: nat)

  /** The image of the submit in flight. */
  function Target(submit: Submit): int {
    match submit case NoSubmit => -1 case Queued(i) => i case Running(i) => i
  }

  /** What the device may do at any time. */
  datatype Progress =
    | ImageReady            // the acquired image is available: acquire_sem is signalled
    | SubmitStarts          // the submit's wait on acquire_sem is over
    | SubmitEnds            // done_sem and fence are signalled
    | PresentWaits(i: nat)  // the present's wait on done_sems[i] is over; the image goes back

  function Advance(s: State, p: Progress): State {
    match p
    case ImageReady =>
      if s.acquire.signalPending then s.(acquire := s.acquire.(signalPending := false, signalled := true)) else s
    case SubmitStarts =>
      if s.submit.Queued? && s.acquire.signalled then s.(submit := Running(s.submit.index), acquire := UNSIGNALLED)
        else s
    case SubmitEnds =>
      if s.submit.Running? && s.submit.at < |s.done| then
        var i := s.submit.at;
        s.(submit := NoSubmit, fence := true,
          done := s.done[i := s.done[i].(signalPending := false, signalled := true)])
      else s
    case PresentWaits(i) =>
      if i < |s.done| && i < |s.images| && s.done[i].signalled && s.done[i].waitPending then
        s.(done := s.done[i := UNSIGNALLED], images := s.images[i := Free])
      else s
  }

  // ------------------------------------------------------------ the invariant

  /** What the semaphore of image i may be in. */
  ghost predicate ImageFits(s: State, i: nat)
    requires i < |s.done| == |s.images|
  {
    && (s.images[i] == Free ==> s.done[i].Clean())
    && (s.done[i].signalPending <==> i == Target(s.submit))
    && (s.done[i].waitPending <==> s.images[i] == Presenting)
    && !(s.done[i].signalled && s.done[i].signalPending)
  }

  /** The state between any two calls; `idle`: no frame is under way, so the fence is
      signalled unless it belongs to the submit in flight. */
  ghost predicate Fits(s: State) {
    && |s.done| == |s.images|
    && (forall i :: 0 <= i < |s.images| ==> ImageFits(s, i))
    && Target(s.submit) < |s.images|
    && (s.submit.NoSubmit? || s.submit.Running? ==> !s.acquire.waitPending)
    && (s.submit.Queued? ==> s.acquire.waitPending && s.acquire.signalPending != s.acquire.signalled)
    && (!s.submit.NoSubmit? ==> !s.fence)
  }

  ghost predicate Idle(s: State) {
    Fits(s) && (s.submit.NoSubmit? <==> s.fence) && (!s.submit.Queued? ==> s.acquire.Clean())
  }

  /** The application has image i and has not submitted. */
  ghost predicate Holding(s: State, i: nat) {
    && Fits(s) && s.submit.NoSubmit? && i < |s.images| && s.images[i] == Acquired && s.done[i].Clean()
    && s.acquire.signalPending != s.acquire.signalled
  }

  /** Image i is submitted and not handed to the presentation engine yet. */
  ghost predicate Submitted(s: State, i: nat) {
    Idle(s) && i < |s.images| && s.images[i] == Acquired && (s.done[i].signalled || s.done[i].signalPending)
  }

  lemma {:induction false} AdvanceFits(s: State, p: Progress)
    requires Fits(s)
    ensures Fits(Advance(s, p))
    ensures Idle(s) ==> Idle(Advance(s, p))
    ensures forall i :: Holding(s, i) ==> Holding(Advance(s, p), i) && Advance(s, p).fence == s.fence
    ensures forall i :: Submitted(s, i) ==> Submitted(Advance(s, p), i)
    ensures s.fence ==> Advance(s, p).fence
    ensures |Advance(s, p).images| == |s.images|
  {
    var s' := Advance(s, p);
    forall i | 0 <= i < |s.images| ensures ImageFits(s', i) {
      assert ImageFits(s, i);
    }
    forall i: nat | Submitted(s, i) ensures Submitted(s', i) {
      assert ImageFits(s, i);
    }
  }

  // ------------------------------------------------------- the driver's calls

  class Device {
    ghost var s: State

    /** CreateSyncAndCommands: the fence is created signalled. */
    ghost constructor (images: nat)
      ensures Idle(s) && s.fence && |s.images| == images
    {
      s := State(UNSIGNALLED, true, seq(images, _ => UNSIGNALLED), seq(images, _ => Free), NoSubmit);
    }

    /** Device progress, as much of it as happens before the next call. */
    ghost method Proceed(schedule: seq<Progress>)
      requires Fits(s)
      modifies this
      ensures Fits(s) && (old(Idle(s)) ==> Idle(s)) && |s.images| == old(|s.images|) && (old(s.fence) ==> s.fence)
      ensures forall i :: old(Holding(s, i)) ==> Holding(s, i) && s.fence == old(s.fence)
      ensures forall i :: old(Submitted(s, i)) ==> Submitted(s, i)
    {
      hide Fits, Idle, Holding, Advance, Submitted;
      for k := 0 to |schedule|
        invariant Fits(s) && (old(Idle(s)) ==> Idle(s)) && |s.images| == old(|s.images|) && (old(s.fence) ==> s.fence)
        invariant forall i :: old(Holding(s, i)) ==> Holding(s, i) && s.fence == old(s.fence)
        invariant forall i :: old(Submitted(s, i)) ==> Submitted(s, i)
      {
        AdvanceFits(s, schedule[k]);
        s := Advance(s, schedule[k]);
      }
    }

    /** Returns when the fence is signalled; it must be, or belong to a submit in flight. */
    ghost method WaitForFences()
      requires Idle(s) && (s.fence || !s.submit.NoSubmit?)
      modifies this
      ensures Idle(s) && s.fence && |s.images| == old(|s.images|)
    {
      hide Fits, Holding;
      AdvanceFits(s, ImageReady);
      AdvanceFits(Advance(s, ImageReady), SubmitStarts);
      AdvanceFits(Advance(Advance(s, ImageReady), SubmitStarts), SubmitEnds);
      SubmitFinishes(s);
      s := Advance(Advance(Advance(s, ImageReady), SubmitStarts), SubmitEnds);
    }

    /** The semaphore must have no operation pending, and not be signalled. */
    ghost method AcquireNextImage(index: nat, succeeds: bool)
      requires s.acquire.Clean()
      requires Idle(s) && s.fence && (succeeds ==> index < |s.images| && s.images[index] == Free)
      modifies this
      ensures !succeeds ==> s == old(s)
      ensures succeeds ==> Holding(s, index) && s.fence && |s.images| == old(|s.images|)
    {
      if succeeds {
        ghost var was := s;
        s := s.(acquire := s.acquire.(signalPending := true), images := s.images[index := Acquired]);
        assert ImageFits(was, index);
        forall i | 0 <= i < |s.images| ensures ImageFits(s, i) {
          assert ImageFits(was, i);
        }
      }
    }

    /** The fence must not belong to a submit in flight. */
    ghost method ResetFences(index: nat)
      requires s.submit.NoSubmit? && Holding(s, index)
      modifies this
      ensures Holding(s, index) && !s.fence && |s.images| == old(|s.images|)
    {
      ghost var was := s;
      s := s.(fence := false);
      forall i | 0 <= i < |s.images| ensures ImageFits(s, i) {
        assert ImageFits(was, i);
      }
    }

    /** Waits on acquire_sem, signals done_sems[index] and the fence: the fence must be
        unsignalled, and nothing may be pending on the semaphore to be signalled. */
    ghost method QueueSubmit(index: nat)
      requires index < |s.done| && s.done[index].Clean() && !s.fence
      requires Holding(s, index)
      modifies this
      ensures Submitted(s, index) && s.submit == Queued(index) && |s.images| == old(|s.images|)
    {
      ghost var was := s;
      s := s.(submit := Queued(index), acquire := s.acquire.(waitPending := true),
        done := s.done[index := s.done[index].(signalPending := true)]);
      forall i | 0 <= i < |s.images| ensures ImageFits(s, i) {
        assert ImageFits(was, i);
      }
    }

    /** Queues the wait on done_sems[index], which must be signalled or about to be; a
        request the driver rejects leaves the image with the application. */
    ghost method QueuePresent(index: nat, accepted: bool)
      requires index < |s.done| && !s.done[index].waitPending
      requires (s.done[index].signalled || s.done[index].signalPending)
      requires Submitted(s, index)
      modifies this
      ensures Idle(s) && |s.images| == old(|s.images|)
    {
      if accepted {
        ghost var was := s;
        s := s.(images := s.images[index := Presenting], done := s.done[index := s.done[index].(waitPending := true)]);
        forall i | 0 <= i < |s.images| ensures ImageFits(s, i) {
          assert ImageFits(was, i);
        }
      }
    }
  }

  lemma {:induction false} SubmitFinishes(s: State)
    requires Idle(s)
    ensures Advance(Advance(Advance(s, ImageReady), SubmitStarts), SubmitEnds).fence
  {
  }

  // ------------------------------------------------------------ the present loop

  /** What one frame meets: device progress before every call, and the driver's answers. */
  datatype Frame = Frame(beforeWait: seq<Progress>, beforeAcquire: seq<Progress>, beforeReset: seq<Progress>,
    beforeSubmit: seq<Progress>, beforePresent: seq<Progress>,
                         image: nat, acquired: bool, accepted: bool)

  /** AcquireRecordPresent. Every valid-usage rule holds at its call, whatever the device
      did in between; a failed acquire or present leaves the loop ready for the next frame. */
  ghost method AcquireRecordPresent(d: Device, f: Frame)
    requires Idle(d.s)
    modifies d
    ensures Idle(d.s) && |d.s.images| == old(|d.s.images|)
  {
    hide Fits, Holding, Advance, Submitted;
    FenceComes(d.s);
    d.Proceed(f.beforeWait);
    FenceComes(d.s);
    d.WaitForFences();
    d.Proceed(f.beforeAcquire);
    CleanWhenFenced(d.s);
    var succeeds := f.acquired && f.image < |d.s.images| && d.s.images[f.image] == Free;
    d.AcquireNextImage(f.image, succeeds);
    if !succeeds {
      return;
    }
    d.Proceed(f.beforeReset);
    HoldingIsClean(d.s, f.image);
    d.ResetFences(f.image);
    d.Proceed(f.beforeSubmit);
    HoldingIsClean(d.s, f.image);
    d.QueueSubmit(f.image);
    SubmittedIsReady(d.s, f.image);
    d.Proceed(f.beforePresent);
    SubmittedIsReady(d.s, f.image);
    d.QueuePresent(f.image, f.accepted);
  }

  lemma {:induction false} FenceComes(s: State)
    requires Idle(s)
    ensures s.fence || !s.submit.NoSubmit?
  {
  }

  lemma {:induction false} SubmittedIsReady(s: State, i: nat)
    requires Submitted(s, i)
    ensures Idle(s) && Fits(s) && i < |s.done| && !s.done[i].waitPending
    ensures (s.done[i].signalled || s.done[i].signalPending)
  {
    assert ImageFits(s, i);
  }

  lemma {:induction false} CleanWhenFenced(s: State)
    requires Idle(s) && s.fence
    ensures s.acquire.Clean() && s.submit.NoSubmit?
  {
  }

  lemma {:induction false} HoldingIsClean(s: State, i: nat)
    requires Holding(s, i)
    ensures s.submit.NoSubmit? && i < |s.done| == |s.images| && s.done[i].Clean()
  {
  }

  /** Any number of frames with any outcomes. */
  ghost method PresentLoop(d: Device, frames: seq<Frame>)
    requires Idle(d.s)
    modifies d
    ensures Idle(d.s)
  {
    for k := 0 to |frames|
      invariant Idle(d.s)
    {
      AcquireRecordPresent(d, frames[k]);
    }
  }

  // ----------------------------------------------------------------- the fit

  /** The target rectangle of a source inside a window. */
  datatype Rect = Rect(x0: int, y0: int, x1: int, y1: int)

  /** Inside the window, centred to the pixel, one side filled and the aspect ratio kept
      up to rounding the other side down; the whole window when a size is zero. */
  ghost predicate IsFit(src_w: nat, src_h: nat, win_w: nat, win_h: nat, r: Rect) {
    var w, h := r.x1 - r.x0, r.y1 - r.y0;
    && 0 <= r.x0 <= r.x1 <= win_w && 0 <= r.y0 <= r.y1 <= win_h
    && 0 <= (win_w - r.x1) - r.x0 <= 1 && 0 <= (win_h - r.y1) - r.y0 <= 1
    && (src_w == 0 || src_h == 0 || win_w == 0 || win_h == 0 ==> w == win_w && h == win_h)
    && (src_w != 0 && src_h != 0 && win_w != 0 && win_h != 0 ==>
        && (w == win_w || h == win_h)
        && (w == win_w ==>
            h * src_w <= win_w * src_h < (h + 1) * src_w || (h == win_h && win_w * src_h == win_h * src_w))
        && (w != win_w ==> w * src_h <= win_h * src_w < (w + 1) * src_h))
  }

  const S32_LIMIT: int := 0x8000_0000

  /** static_cast<s32>, and a signed sum that wraps. */
  function AsS32(i: int): (r: int)
    requires -S32_LIMIT <= i < 2 * S32_LIMIT
    ensures -S32_LIMIT <= r < S32_LIMIT
    ensures r == i <==> i < S32_LIMIT
  {
    if i < S32_LIMIT then i else i - 2 * S32_LIMIT
  }

  /** What the signed offsets keep of a rectangle. */
  function Offsets(fit: Rect): Rect
    requires -S32_LIMIT <= fit.x1 < 2 * S32_LIMIT && -S32_LIMIT <= fit.y1 < 2 * S32_LIMIT
  {
    Rect(fit.x0, fit.y0, AsS32(fit.x1), AsS32(fit.y1))
  }

  /** A wider source is as wide as the window, with bars above and below. */
  lemma {:induction false} Letterbox(src_w: nat, src_h: nat, win_w: nat, win_h: nat)
    requires src_w != 0 && src_h != 0 && win_w != 0 && win_h != 0 && src_w * win_h > src_h * win_w
    ensures var fit_h := win_w * src_h / src_w;
      && fit_h < win_h
      && IsFit(src_w, src_h, win_w, win_h, Rect(0, (win_h - fit_h) / 2, win_w, (win_h - fit_h) / 2 + fit_h))
  {
    Quotient(win_w * src_h, src_w, win_h);
  }

  /** A taller one is as high, with bars left and right. */
  lemma {:induction false} Pillarbox(src_w: nat, src_h: nat, win_w: nat, win_h: nat)
    requires src_w != 0 && src_h != 0 && win_w != 0 && win_h != 0 && src_w * win_h < src_h * win_w
    ensures var fit_w := win_h * src_w / src_h;
      && fit_w < win_w
      && IsFit(src_w, src_h, win_w, win_h, Rect((win_w - fit_w) / 2, 0, (win_w - fit_w) / 2 + fit_w, win_h))
  {
    Quotient(win_h * src_w, src_h, win_w);
  }

  lemma {:induction false} WholeWindow(src_w: nat, src_h: nat, win_w: nat, win_h: nat)
    requires src_w == 0 || src_h == 0 || win_w == 0 || win_h == 0 || src_w * win_h == src_h * win_w
    ensures IsFit(src_w, src_h, win_w, win_h, Rect(0, 0, win_w, win_h))
  {
  }

  /** The offsets are those of the fitting rectangle exactly when its far corner is a
      signed 32-bit point, as it is in every window below 2^31 pixels a side. */
  method ComputeFitRect(src_w: nat, src_h: nat, win_w: nat, win_h: nat) returns (r: Rect)
    requires src_w < U32_LIMIT && src_h < U32_LIMIT && win_w < U32_LIMIT && win_h < U32_LIMIT
    ensures exists fit ::
      && IsFit(src_w, src_h, win_w, win_h, fit) && r == Offsets(fit)
      && (r == fit <==> fit.x1 < S32_LIMIT && fit.y1 < S32_LIMIT)
    ensures win_w < S32_LIMIT && win_h < S32_LIMIT ==> IsFit(src_w, src_h, win_w, win_h, r)
  {
    hide IsFit;
    var x0, y0, x1, y1 := 0, 0, AsS32(win_w), AsS32(win_h);
    ghost var fit := Rect(0, 0, win_w, win_h);
    if src_w != 0 && src_h != 0 && win_w != 0 && win_h != 0 && src_w * win_h > src_h * win_w {
      Letterbox(src_w, src_h, win_w, win_h);
      var fit_h := win_w * src_h / src_w;
      y0 := AsS32((win_h - fit_h) / 2);
      y1 := AsS32(y0 + AsS32(fit_h));
      fit := Rect(0, (win_h - fit_h) / 2, win_w, (win_h - fit_h) / 2 + fit_h);
    } else if src_w != 0 && src_h != 0 && win_w != 0 && win_h != 0 && src_w * win_h < src_h * win_w {
      Pillarbox(src_w, src_h, win_w, win_h);
      var fit_w := win_h * src_w / src_h;
      x0 := AsS32((win_w - fit_w) / 2);
      x1 := AsS32(x0 + AsS32(fit_w));
      fit := Rect((win_w - fit_w) / 2, 0, (win_w - fit_w) / 2 + fit_w, win_h);
    } else {
      WholeWindow(src_w, src_h, win_w, win_h);
    }
    r := Rect(x0, y0, x1, y1);
    assert IsFit(src_w, src_h, win_w, win_h, fit) && r == Offsets(fit);
  }

  lemma {:induction false} Quotient(n: nat, d: nat, limit: nat)
    requires d > 0 && n < d * limit
    ensures n / d * d <= n < (n / d + 1) * d && 0 <= n / d < limit
  {
    if n / d >= limit {
      Times(limit, n / d, d);
    }
  }

  lemma {:induction false} Times(a: nat, b: nat, d: nat)
    requires a <= b
    ensures a * d <= b * d
  {
  }
}
