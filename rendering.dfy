/**
  The per-task step of RenderingHandler: proceed renders one task into a page part (or skips it,
  or raises a page rendering fault), updating the per-page cache of match boxes; handleMessage
  then delivers the part when the handler is running, recycles its bitmap when it is not, and
  reports a fault whatever the running state.

  The collaborators (the document's openPage, pageHasError and renderPageBitmap, bitmap
  allocation and the text detector) are inputs: one Collaborators value says what each answers
  for the task at hand.
 */
module Rendering {
  import opened Wrappers
  import opened Geometry
  import opened TextSearch

  /** One rendering request; never changed once made. */
  datatype RenderingTask = RenderingTask(
    width: real, height: real, bounds: RectF, page: int, thumbnail: bool, cacheOrder: int,
    bestQuality: bool, annotationRendering: bool, searchWord: string)

  /** The fault the document raises when a page cannot be opened or rendered. */
  datatype PageRenderingException = PageRenderingException(page: int, cause: string)

  /** Bitmap.Config: full quality or the reduced-memory format. */
  datatype Config = ARGB_8888 | RGB_565

  datatype Color = Argb(alpha: int, red: int, green: int, blue: int)

  /** Color.argb(120, 255, 255, 0): translucent yellow. */
  const HighlightColor := Argb(120, 255, 255, 0)

  /** What has been drawn onto a bitmap, in drawing order, instead of its pixels. */
  datatype Drawing =
    | PageContent(page: int, renderBounds: Rect, annotations: bool)
    | FilledRect(rect: RectF, color: Color)

  datatype Bitmap = Bitmap(width: int, height: int, config: Config, drawn: seq<Drawing>)

  /** model.PagePart: the finished tile. */
  datatype PagePart = PagePart(page: int, renderedBitmap: Bitmap, pageRelativeBounds: RectF, thumbnail: bool, cacheOrder: int)

  /** The answers of the collaborators for one task. */
  datatype Collaborators = Collaborators(
    openPageFault: Option<PageRenderingException>,
    pageHasError: bool,
    bitmapAllocatable: bool,
    renderFault: Option<PageRenderingException>,
    detectedText: seq<TextBlock>)

  /** What proceed does: return a part, return null, or throw. */
  datatype ProceedResult = Part(part: PagePart) | NoPart | Thrown(error: PageRenderingException)

  /** The single outcome of one handleMessage call. */
  datatype Outcome =
    | Skipped
    | Delivered(part: PagePart)       // posted to onBitmapRendered
    | Recycled(part: PagePart)        // part.getRenderedBitmap().recycle()
    | ErrorReported(error: PageRenderingException)   // posted to onPageError

  type BoxCache = map<int, seq<RectF>>

  // ---------------------------------------------------------------------------
  // Collaborator and drawing primitives
  // ---------------------------------------------------------------------------

  function ConfigFor(bestQuality: bool): Config {
    if bestQuality then ARGB_8888 else RGB_565
  }

  /**
    Bitmap.createBitmap: a blank width x height bitmap; it throws IllegalArgumentException for a
    non-positive size, and `allocatable` says whether the platform accepts the request otherwise.
   */
  function CreateBitmap(width: int, height: int, config: Config, allocatable: bool): (r: Option<Bitmap>)
    ensures r.Some? <==> width > 0 && height > 0 && allocatable
    ensures r.Some? ==> r.value.width == width && r.value.height == height && r.value.config == config && r.value.drawn == []
  {
    if width > 0 && height > 0 && allocatable then Some(Bitmap(width, height, config, [])) else None
  }

  /** renderPageBitmap when it does not throw: the page content is drawn into the bitmap. */
  function RenderPageBitmap(bitmap: Bitmap, page: int, bounds: Rect, annotations: bool): (r: Bitmap)
    ensures r.width == bitmap.width && r.height == bitmap.height && r.config == bitmap.config
    ensures r.drawn == bitmap.drawn + [PageContent(page, bounds, annotations)]
  {
    bitmap.(drawn := bitmap.drawn + [PageContent(page, bounds, annotations)])
  }

  /** The filled rectangle highlightBitmap composites for one normalised match box. */
  function HighlightOf(box: RectF, bitmapBounds: RectF, width: int, height: int): Drawing
    requires NonDegenerate(bitmapBounds)
  {
    FilledRect(Remap(box, bitmapBounds, width, height), HighlightColor)
  }

  /** highlightBitmap: one translucent rectangle drawn over the bitmap. */
  function HighlightBitmap(bitmap: Bitmap, bitmapBounds: RectF, box: RectF): (r: Bitmap)
    requires NonDegenerate(bitmapBounds)
    ensures r.width == bitmap.width && r.height == bitmap.height && r.config == bitmap.config
    ensures r.drawn == bitmap.drawn + [HighlightOf(box, bitmapBounds, bitmap.width, bitmap.height)]
  {
    bitmap.(drawn := bitmap.drawn + [HighlightOf(box, bitmapBounds, bitmap.width, bitmap.height)])
  }

  /** The highlights drawn for a list of match boxes, in list order. */
  function Highlights(boxes: seq<RectF>, bitmapBounds: RectF, width: int, height: int): seq<Drawing>
    requires NonDegenerate(bitmapBounds)
  {
    if boxes == [] then []
    else Highlights(boxes[..|boxes| - 1], bitmapBounds, width, height) + [HighlightOf(boxes[|boxes| - 1], bitmapBounds, width, height)]
  }

  /** One highlight per box, the k-th for the k-th box: exactly the boxes, in order. */
  lemma {:induction false} HighlightsExactly(boxes: seq<RectF>, bitmapBounds: RectF, width: int, height: int)
    requires NonDegenerate(bitmapBounds)
    ensures |Highlights(boxes, bitmapBounds, width, height)| == |boxes|
    ensures forall k :: 0 <= k < |boxes| ==>
      Highlights(boxes, bitmapBounds, width, height)[k] == FilledRect(Remap(boxes[k], bitmapBounds, width, height), HighlightColor)
    decreases |boxes|
  {
    if boxes != [] {
      HighlightsExactly(boxes[..|boxes| - 1], bitmapBounds, width, height);
    }
  }

  lemma HighlightsStep(boxes: seq<RectF>, i: nat, bitmapBounds: RectF, width: int, height: int)
    requires NonDegenerate(bitmapBounds) && i < |boxes|
    ensures Highlights(boxes[..i + 1], bitmapBounds, width, height)
         == Highlights(boxes[..i], bitmapBounds, width, height) + [HighlightOf(boxes[i], bitmapBounds, width, height)]
  {
    assert boxes[..i + 1][..i] == boxes[..i];
  }

  /** pagesBoundBoxes.get(page), with no entry read as no boxes. */
  function CachedBoxes(cache: BoxCache, page: int): seq<RectF> {
    if page in cache then cache[page] else []
  }

  // ---------------------------------------------------------------------------
  // The task step as functions of the state before it
  // ---------------------------------------------------------------------------

  /** The task gets as far as calculateBounds: no open fault, a non-empty size, a healthy page, a bitmap. */
  predicate BoundsCalculated(task: RenderingTask, env: Collaborators) {
    && env.openPageFault.None?
    && Round(task.width) != 0 && Round(task.height) != 0 && !env.pageHasError
    && CreateBitmap(Round(task.width), Round(task.height), ConfigFor(task.bestQuality), env.bitmapAllocatable).Some?
  }

  /** The task gets past renderPageBitmap and yields a part. */
  predicate Renders(task: RenderingTask, env: Collaborators) {
    BoundsCalculated(task, env) && env.renderFault.None?
  }

  /** The task triggers a fresh text scan of its page. */
  predicate Scans(task: RenderingTask) {
    task.thumbnail && task.searchWord != []
  }

  datatype Step = Step(result: ProceedResult, cache: BoxCache)

  /** proceed, from the match cache before the call: its result and the match cache after it. */
  function Proceeded(cache: BoxCache, task: RenderingTask, env: Collaborators): Step
    requires NonDegenerate(task.bounds)
  {
    if env.openPageFault.Some? then Step(Thrown(env.openPageFault.value), cache)
    else
      var w, h := Round(task.width), Round(task.height);
      if w == 0 || h == 0 || env.pageHasError then Step(NoPart, cache)
      else
        match CreateBitmap(w, h, ConfigFor(task.bestQuality), env.bitmapAllocatable)
        case None => Step(NoPart, cache)
        case Some(blank) =>
          if env.renderFault.Some? then Step(Thrown(env.renderFault.value), cache)
          else
            var rendered := RenderPageBitmap(blank, task.page, RoundRect(RenderBounds(w, h, task.bounds)), task.annotationRendering);
            var cache' := if Scans(task) then cache[task.page := BlockBoxes(task.searchWord, env.detectedText, w, h)] else cache;
            var highlighted := rendered.(drawn := rendered.drawn + Highlights(CachedBoxes(cache', task.page), task.bounds, w, h));
            Step(Part(PagePart(task.page, highlighted, task.bounds, task.thumbnail, task.cacheOrder)), cache')
  }

  datatype Handled = Handled(outcome: Outcome, cache: BoxCache)

  /** handleMessage, from the running flag and the match cache before the call. */
  function HandleStep(running: bool, cache: BoxCache, task: RenderingTask, env: Collaborators): Handled
    requires NonDegenerate(task.bounds)
  {
    var step := Proceeded(cache, task, env);
    match step.result
    case Thrown(e) => Handled(ErrorReported(e), step.cache)
    case NoPart => Handled(Skipped, step.cache)
    case Part(p) => Handled(if running then Delivered(p) else Recycled(p), step.cache)
  }

  // ---------------------------------------------------------------------------
  // What one step promises
  // ---------------------------------------------------------------------------

  /** A part is delivered exactly when running, recycled exactly when not, and never both. */
  lemma DeliveredIffRunning(running: bool, cache: BoxCache, task: RenderingTask, env: Collaborators)
    requires NonDegenerate(task.bounds)
    ensures var p, o := Proceeded(cache, task, env).result, HandleStep(running, cache, task, env).outcome;
      && ((o.Delivered? || o.Recycled?) <==> p.Part?)
      && (o.Delivered? <==> p.Part? && running)
      && (o.Recycled? <==> p.Part? && !running)
      && (p.Part? ==> o.part == p.part)
  {
  }

  /** A part is produced exactly when the task renders. */
  lemma PartIffRenders(cache: BoxCache, task: RenderingTask, env: Collaborators)
    requires NonDegenerate(task.bounds)
    ensures Proceeded(cache, task, env).result.Part? <==> Renders(task, env)
  {
  }

  /** A fault from openPage is reported whatever the running flag, and nothing else happens. */
  lemma OpenFaultReported(running: bool, cache: BoxCache, task: RenderingTask, env: Collaborators)
    requires NonDegenerate(task.bounds)
    requires env.openPageFault.Some?
    ensures HandleStep(running, cache, task, env) == Handled(ErrorReported(env.openPageFault.value), cache)
  {
  }

  /** A fault from renderPageBitmap is reported whatever the running flag, and the cache is untouched. */
  lemma RenderFaultReported(running: bool, cache: BoxCache, task: RenderingTask, env: Collaborators)
    requires NonDegenerate(task.bounds)
    requires BoundsCalculated(task, env) && env.renderFault.Some?
    ensures HandleStep(running, cache, task, env) == Handled(ErrorReported(env.renderFault.value), cache)
  {
  }

  /** An error is reported only for a fault of the page source, and the running flag plays no part. */
  lemma ErrorOnlyFromFaults(running: bool, cache: BoxCache, task: RenderingTask, env: Collaborators)
    requires NonDegenerate(task.bounds)
    ensures var o := HandleStep(running, cache, task, env).outcome;
      o.ErrorReported? <==> env.openPageFault.Some? || (BoundsCalculated(task, env) && env.renderFault.Some?)
    ensures HandleStep(running, cache, task, env).outcome.ErrorReported? ==>
      HandleStep(running, cache, task, env) == HandleStep(!running, cache, task, env)
  {
  }

  /**
    The task is skipped (no part, no error) exactly when openPage succeeds and then the rounded
    width or height is zero, the page has an error, or the bitmap cannot be created (which
    includes a negative rounded size); the cache is then unchanged.
   */
  lemma SkipRule(running: bool, cache: BoxCache, task: RenderingTask, env: Collaborators)
    requires NonDegenerate(task.bounds)
    ensures var w, h := Round(task.width), Round(task.height);
      HandleStep(running, cache, task, env).outcome == Skipped <==>
        env.openPageFault.None? && (w == 0 || h == 0 || env.pageHasError || w < 0 || h < 0 || !env.bitmapAllocatable)
    ensures HandleStep(running, cache, task, env).outcome == Skipped ==> HandleStep(running, cache, task, env).cache == cache
  {
  }

  /**
    pagesBoundBoxes changes only for a thumbnail task with a non-empty search word that renders:
    its page's entry is replaced (possibly by an empty list) by the new scan; no other page changes.
   */
  lemma CacheUpdateRule(running: bool, cache: BoxCache, task: RenderingTask, env: Collaborators)
    requires NonDegenerate(task.bounds)
    ensures var cache' := HandleStep(running, cache, task, env).cache;
      if Renders(task, env) && Scans(task)
      then cache' == cache[task.page := BlockBoxes(task.searchWord, env.detectedText, Round(task.width), Round(task.height))]
      else cache' == cache
    ensures var cache' := HandleStep(running, cache, task, env).cache;
      forall p :: p != task.page ==> (p in cache' <==> p in cache) && (p in cache ==> cache'[p] == cache[p])
  {
  }

  /**
    A produced part carries the task's page, bounds, thumbnail flag and cache order, and a
    bitmap of the rounded size in the requested format holding the page content followed by
    one highlight for each cached box of the page (after this step's update), in order.
   */
  lemma PartContents(cache: BoxCache, task: RenderingTask, env: Collaborators)
    requires NonDegenerate(task.bounds)
    requires Renders(task, env)
    ensures var step, w, h := Proceeded(cache, task, env), Round(task.width), Round(task.height);
      && step.result.Part?
      && step.result.part.page == task.page
      && step.result.part.pageRelativeBounds == task.bounds
      && step.result.part.thumbnail == task.thumbnail
      && step.result.part.cacheOrder == task.cacheOrder
      && step.result.part.renderedBitmap.width == w
      && step.result.part.renderedBitmap.height == h
      && step.result.part.renderedBitmap.config == ConfigFor(task.bestQuality)
      && step.result.part.renderedBitmap.drawn
         == [PageContent(task.page, RoundRect(RenderBounds(w, h, task.bounds)), task.annotationRendering)]
            + Highlights(CachedBoxes(step.cache, task.page), task.bounds, w, h)
  {
  }

  /**
    A thumbnail scan feeds later renders of the same page: after a scanning thumbnail task for
    page P renders, a later task for P that renders without scanning highlights exactly the
    boxes that scan found, remapped into its own bitmap.
   */
  lemma ThumbnailScanFeedsLaterRender(cache: BoxCache, first: RenderingTask, env1: Collaborators,
                                      second: RenderingTask, env2: Collaborators)
    requires NonDegenerate(first.bounds) && NonDegenerate(second.bounds)
    requires first.page == second.page
    requires Renders(first, env1) && Scans(first)
    requires Renders(second, env2) && !Scans(second)
    ensures var mid := Proceeded(cache, first, env1).cache;
      var found := BlockBoxes(first.searchWord, env1.detectedText, Round(first.width), Round(first.height));
      var w, h := Round(second.width), Round(second.height);
      Proceeded(mid, second, env2).result.part.renderedBitmap.drawn
        == [PageContent(second.page, RoundRect(RenderBounds(w, h, second.bounds)), second.annotationRendering)]
           + Highlights(found, second.bounds, w, h)
  {
    CacheUpdateRule(false, cache, first, env1);
    PartContents(Proceeded(cache, first, env1).cache, second, env2);
  }

  // ---------------------------------------------------------------------------
  // The handler object
  // ---------------------------------------------------------------------------

  class RenderingHandler {
    /** Whether finished parts are delivered (true) or recycled (false). */
    var running: bool
    /** Normalised match boxes per page, from the last scanning thumbnail render of that page. */
    var pagesBoundBoxes: BoxCache
    /** Scratch state that calculateBounds resets and fills on every call. */
    var renderMatrix: Matrix
    var renderBounds: RectF
    var roundedRenderBounds: Rect

    constructor ()
      ensures !running && pagesBoundBoxes == map[]
      ensures renderMatrix == Identity && renderBounds == RectF(0.0, 0.0, 0.0, 0.0) && roundedRenderBounds == Rect(0, 0, 0, 0)
    {
      running := false;
      pagesBoundBoxes := map[];
      renderMatrix := Identity;
      renderBounds := RectF(0.0, 0.0, 0.0, 0.0);
      roundedRenderBounds := Rect(0, 0, 0, 0);
    }

    method Start()
      modifies this`running
      ensures running
    {
      running := true;
    }

    method Stop()
      modifies this`running
      ensures !running
    {
      running := false;
    }

    /** calculateBounds: the render matrix, the mapped tile rectangle and its rounding. */
    method CalculateBounds(width: int, height: int, pageSliceBounds: RectF)
      requires NonDegenerate(pageSliceBounds)
      modifies this`renderMatrix, this`renderBounds, this`roundedRenderBounds
      ensures renderMatrix == RenderMatrix(width, height, pageSliceBounds)
      ensures renderBounds == RenderBounds(width, height, pageSliceBounds)
      ensures roundedRenderBounds == RoundRect(RenderBounds(width, height, pageSliceBounds))
    {
      renderMatrix := Identity;
      renderMatrix := PostTranslate(renderMatrix, -pageSliceBounds.left * width as real, -pageSliceBounds.top * height as real);
      renderMatrix := PostScale(renderMatrix, 1.0 / pageSliceBounds.Width(), 1.0 / pageSliceBounds.Height());
      assert renderMatrix == RenderMatrix(width, height, pageSliceBounds);
      renderBounds := RectF(0.0, 0.0, width as real, height as real);
      renderBounds := MapRect(renderMatrix, renderBounds);
      assert renderBounds == RenderBounds(width, height, pageSliceBounds);
      roundedRenderBounds := RoundRect(renderBounds);
    }

    /** proceed: render one task; the match cache and the scratch bounds are updated on the way. */
    method Proceed(task: RenderingTask, env: Collaborators) returns (result: ProceedResult)
      requires NonDegenerate(task.bounds)
      modifies this`pagesBoundBoxes, this`renderMatrix, this`renderBounds, this`roundedRenderBounds
      ensures Step(result, pagesBoundBoxes) == Proceeded(old(pagesBoundBoxes), task, env)
      ensures BoundsCalculated(task, env) ==>
        && renderMatrix == RenderMatrix(Round(task.width), Round(task.height), task.bounds)
        && renderBounds == RenderBounds(Round(task.width), Round(task.height), task.bounds)
        && roundedRenderBounds == RoundRect(renderBounds)
      ensures !BoundsCalculated(task, env) ==>
        renderMatrix == old(renderMatrix) && renderBounds == old(renderBounds) && roundedRenderBounds == old(roundedRenderBounds)
    {
      if env.openPageFault.Some? {
        return Thrown(env.openPageFault.value);
      }
      var w := Round(task.width);
      var h := Round(task.height);
      if w == 0 || h == 0 || env.pageHasError {
        return NoPart;
      }
      var created := CreateBitmap(w, h, ConfigFor(task.bestQuality), env.bitmapAllocatable);
      if created.None? {
        return NoPart;
      }
      var render := created.value;
      CalculateBounds(w, h, task.bounds);
      if env.renderFault.Some? {
        return Thrown(env.renderFault.value);
      }
      render := RenderPageBitmap(render, task.page, roundedRenderBounds, task.annotationRendering);
      assert render.width == w && render.height == h;
      if task.thumbnail && |task.searchWord| > 0 {
        var found := SearchWordBoundingBox(task.searchWord, env.detectedText, render.width, render.height);
        pagesBoundBoxes := pagesBoundBoxes[task.page := found];
      }
      assert pagesBoundBoxes == (if Scans(task) then old(pagesBoundBoxes)[task.page := BlockBoxes(task.searchWord, env.detectedText, w, h)] else old(pagesBoundBoxes));
      ghost var rendered := render;
      if task.page in pagesBoundBoxes {
        render := DrawHighlights(render, task.bounds, pagesBoundBoxes[task.page]);
      } else {
        assert Highlights([], task.bounds, w, h) == [];
        assert render == rendered.(drawn := rendered.drawn + Highlights([], task.bounds, w, h));
      }
      assert render == rendered.(drawn := rendered.drawn + Highlights(CachedBoxes(pagesBoundBoxes, task.page), task.bounds, w, h));
      result := Part(PagePart(task.page, render, task.bounds, task.thumbnail, task.cacheOrder));
    }

    /** The loop of proceed that highlights every cached box of the page, in list order. */
    static method DrawHighlights(bitmap: Bitmap, bitmapBounds: RectF, boxes: seq<RectF>) returns (r: Bitmap)
      requires NonDegenerate(bitmapBounds)
      ensures r == bitmap.(drawn := bitmap.drawn + Highlights(boxes, bitmapBounds, bitmap.width, bitmap.height))
    {
      r := bitmap;
      var i := 0;
      while i < |boxes|
        invariant 0 <= i <= |boxes|
        invariant r == bitmap.(drawn := bitmap.drawn + Highlights(boxes[..i], bitmapBounds, bitmap.width, bitmap.height))
      {
        r := HighlightBitmap(r, bitmapBounds, boxes[i]);
        HighlightsStep(boxes, i, bitmapBounds, bitmap.width, bitmap.height);
        i := i + 1;
      }
      assert boxes[..i] == boxes;
    }

    /** handleMessage: run proceed once, then deliver, recycle or report, checking running once. */
    method HandleMessage(task: RenderingTask, env: Collaborators) returns (outcome: Outcome)
      requires NonDegenerate(task.bounds)
      modifies this`pagesBoundBoxes, this`renderMatrix, this`renderBounds, this`roundedRenderBounds
      ensures Handled(outcome, pagesBoundBoxes) == HandleStep(running, old(pagesBoundBoxes), task, env)
      ensures BoundsCalculated(task, env) ==>
        && renderMatrix == RenderMatrix(Round(task.width), Round(task.height), task.bounds)
        && renderBounds == RenderBounds(Round(task.width), Round(task.height), task.bounds)
        && roundedRenderBounds == RoundRect(renderBounds)
      ensures !BoundsCalculated(task, env) ==>
        renderMatrix == old(renderMatrix) && renderBounds == old(renderBounds) && roundedRenderBounds == old(roundedRenderBounds)
    {
      var result := Proceed(task, env);
      match result
      case Thrown(e) =>
        outcome := ErrorReported(e);
      case NoPart =>
        outcome := Skipped;
      case Part(part) =>
        if running {
          outcome := Delivered(part);
        } else {
          outcome := Recycled(part);
        }
    }
  }
}
