/**
 * The OptimizedImage component of src/components/OptimizedImage.jsx: an image
 * that waits until it is near the viewport before it is given a source,
 * shows a pulsing placeholder while the bytes load, and falls back to a fixed
 * "broken image" box when loading fails.
 *
 * The pure part (initial state, how each event changes the state, which
 * markup a state renders) is a set of functions; the component instance is
 * the class LazyImage, whose event handlers update its fields and are proved
 * against those functions.
 */
module OptimizedImage {
  import opened Wrappers
  import opened Text
  import ImageConfig

  /** The props the logic reads; alt, className, style and onClick are passed through untouched. */
  datatype Props = Props(src: string, lazy: bool, priority: bool, loading: Option<string>)

  /**
   * The props a caller gets by passing only a source (`lazy` defaults to true,
   * `priority` to false): such an image starts out of view and, once shown,
   * asks the browser to load it lazily.
   */
  function DefaultProps(src: string): (p: Props)
    ensures p.src == src
    ensures ViewOf(Initial(p)) == Pending
    ensures LoadingAttr(p) == "lazy"
  {
    Props(src, true, false, None)
  }

  /** One instance's state: the three React state flags and whether its observer watches the element. */
  datatype State = State(isInView: bool, isLoaded: bool, hasError: bool, observing: bool)

  /**
   * What can happen to a mounted instance: the mount effect runs, the
   * observer delivers a batch of entries (each one intersecting or not), or
   * the <img> reports that it loaded or failed.
   */
  datatype Event = Effect | Intersection(entries: seq<bool>) | Load | Error

  /** The useState initial values: the image starts in view exactly when it is not lazy or has priority. */
  function Initial(p: Props): (s: State)
    ensures ViewOf(s) == if !p.lazy || p.priority then Loading else Pending
    ensures Consistent(s) && !s.observing
  {
    State(!p.lazy || p.priority, false, false, false)
  }

  /** No flag goes back from true to false. */
  predicate Grows(s: State, t: State)
  {
    && (s.isInView ==> t.isInView)
    && (s.isLoaded ==> t.isLoaded)
    && (s.hasError ==> t.hasError)
  }

  /** The effect, the observer callback, handleLoad and handleError. */
  function Step(p: Props, s: State, e: Event): (t: State)
    ensures Grows(s, t)
    ensures e.Load? ==> t.isInView == s.isInView && t.isLoaded && t.hasError == s.hasError
    ensures e.Error? ==> t.isInView == s.isInView && t.isLoaded == s.isLoaded && t.hasError
    ensures (e.Effect? || e.Intersection?) ==> t.isLoaded == s.isLoaded && t.hasError == s.hasError
  {
    match e
    case Effect =>
      if p.priority || !p.lazy then s.(isInView := true) else s.(observing := true)
    case Intersection(entries) =>
      if true in entries then s.(isInView := true, observing := false) else s
    case Load => s.(isLoaded := true)
    case Error => s.(hasError := true)
  }

  /** The state after a sequence of events, in order. */
  function Run(p: Props, s: State, events: seq<Event>): State
    decreases |events|
  {
    if events == [] then s else Run(p, Step(p, s, events[0]), events[1..])
  }

  /** Whatever happens, every flag that was set stays set. */
  lemma {:induction false} RunGrows(p: Props, s: State, events: seq<Event>)
    ensures Grows(s, Run(p, s, events))
    decreases |events|
  {
    if events != [] {
      RunGrows(p, Step(p, s, events[0]), events[1..]);
    }
  }

  /** A second qualifying notification changes nothing: the element is already in view and no longer observed. */
  lemma RepeatedIntersectionIgnored(p: Props, s: State, first: seq<bool>, second: seq<bool>)
    requires true in first
    ensures Step(p, Step(p, s, Intersection(first)), Intersection(second)) == Step(p, s, Intersection(first))
  {
  }

  /** The four mutually exclusive things an instance can show. */
  datatype View = Fallback | Pending | Loading | Loaded

  function ViewOf(s: State): View
  {
    if s.hasError then Fallback
    else if !s.isInView then Pending
    else if !s.isLoaded then Loading
    else Loaded
  }

  /** Once loading has failed, the fallback is shown whatever happens next. */
  lemma ErrorIsTerminal(p: Props, s: State, events: seq<Event>)
    requires s.hasError
    ensures ViewOf(Run(p, s, events)) == Fallback
  {
    RunGrows(p, s, events);
  }

  /** The <img> element the frame holds, with the attributes the logic decides. */
  datatype Img = Img(src: string, fullOpacity: bool, loading: string)

  /** The markup: the fallback box, or the frame with its pulse, image and placeholder children. */
  datatype Markup = FallbackBox | Frame(pulse: bool, image: Option<Img>, placeholder: bool)

  /** A source string starting with '/' is used as it is; anything else is resolved as an asset path. */
  function ImageSrc(c: ImageConfig.Config, src: string): (r: string)
    ensures r == src <==> (|src| > 0 && src[0] == '/')
    ensures r != src ==> r == ImageConfig.ImageUrl(c, src)
    ensures EndsWith(r, src)
    ensures c.mode.Local? ==> |r| > 0 && r[0] == '/'
  {
    if |src| > 0 && src[0] == '/' then src
    else
      var r := ImageConfig.ImageUrl(c, src);
      assert ImageConfig.BaseUrl(c) + "/" <= r;
      r
  }

  /** In local mode a resolved source is left alone when it comes back: resolving is idempotent. */
  lemma LocalImageSrcIdempotent(c: ImageConfig.Config, src: string)
    requires c.mode.Local?
    ensures ImageSrc(c, ImageSrc(c, src)) == ImageSrc(c, src)
  {
  }

  /** The loading attribute: the prop when it is a non-empty string, else eager for priority images, else lazy. */
  function LoadingAttr(p: Props): (r: string)
    ensures r != ""
    ensures p.loading.Some? && p.loading.value != "" ==> r == p.loading.value
    ensures p.loading.None? || p.loading.value == "" ==> (r == "eager" <==> p.priority) && (r == "lazy" <==> !p.priority)
  {
    if p.loading.Some? && p.loading.value != "" then p.loading.value
    else if p.priority then "eager"
    else "lazy"
  }

  /** The component's render: the error branch, else a frame with three conditional children. */
  function Render(c: ImageConfig.Config, p: Props, s: State): (m: Markup)
    ensures m.FallbackBox? <==> s.hasError
    ensures m.Frame? ==> (m.image.Some? <==> s.isInView) && (m.pulse <==> s.isInView && !s.isLoaded)
    ensures m.Frame? && m.image.Some? ==> m.image.value.fullOpacity == s.isLoaded
    ensures m.Frame? ==> (m.placeholder <==> m.image.None?)
    ensures m.Frame? && m.pulse ==> m.image.Some? && !m.image.value.fullOpacity
    ensures m.Frame? && m.image.Some? ==> m.image.value.src == ImageSrc(c, p.src) && m.image.value.loading == LoadingAttr(p)
  {
    if s.hasError then FallbackBox
    else
      Frame(
        !s.isLoaded && s.isInView,
        if s.isInView then Some(Img(ImageSrc(c, p.src), s.isLoaded, LoadingAttr(p))) else None,
        !s.isInView)
  }

  /** Whether an <img> is in the markup (its loading attribute may still let the browser defer the fetch). */
  predicate ShowsImg(m: Markup)
  {
    m.Frame? && m.image.Some?
  }

  /**
   * Each of the four views has exactly one markup: the fallback box, the
   * empty placeholder, the pulse over a transparent image, or the fully
   * visible image.
   */
  lemma RenderShowsView(c: ImageConfig.Config, p: Props, s: State)
    ensures var img := Img(ImageSrc(c, p.src), ViewOf(s) == Loaded, LoadingAttr(p));
            && (ViewOf(s) == Fallback <==> Render(c, p, s) == FallbackBox)
            && (ViewOf(s) == Pending <==> Render(c, p, s) == Frame(false, None, true))
            && (ViewOf(s) == Loading <==> Render(c, p, s) == Frame(true, Some(img), false))
            && (ViewOf(s) == Loaded <==> Render(c, p, s) == Frame(false, Some(img), false))
  {
  }

  /** A priority or non-lazy image is in view from its first render, so its <img> is in the markup at once. */
  lemma EagerImageRendersImgAtOnce(c: ImageConfig.Config, p: Props)
    requires p.priority || !p.lazy
    ensures ViewOf(Initial(p)) == Loading
    ensures ShowsImg(Render(c, p, Initial(p)))
  {
  }

  /** An event that can bring the element into view. */
  predicate Qualifies(e: Event)
  {
    e.Intersection? && true in e.entries
  }

  /**
   * A lazy, non-priority image stays a placeholder, with no <img> in the
   * markup, until a qualifying intersection arrives: the mount effect, empty
   * or non-intersecting batches, and stray load or error signals do not
   * bring it into view.
   */
  lemma {:induction false} LazyImageWaitsForIntersection(c: ImageConfig.Config, p: Props, s: State, events: seq<Event>)
    requires p.lazy && !p.priority && !s.isInView
    requires forall i :: 0 <= i < |events| ==> !Qualifies(events[i])
    ensures !Run(p, s, events).isInView
    ensures !ShowsImg(Render(c, p, Run(p, s, events)))
    decreases |events|
  {
    if events != [] {
      LazyImageWaitsForIntersection(c, p, Step(p, s, events[0]), events[1..]);
    }
  }

  /** Events the browser can deliver in a state: load and error come from a rendered <img>, notifications from an active observer. */
  predicate Deliverable(c: ImageConfig.Config, p: Props, s: State, e: Event)
  {
    match e
    case Effect => true
    case Intersection(_) => s.observing
    case Load => ShowsImg(Render(c, p, s))
    case Error => ShowsImg(Render(c, p, s))
  }

  /** Each event of the sequence is deliverable in the state the earlier ones lead to. */
  predicate AllDeliverable(c: ImageConfig.Config, p: Props, s: State, events: seq<Event>)
    decreases |events|
  {
    events == [] || (Deliverable(c, p, s, events[0]) && AllDeliverable(c, p, Step(p, s, events[0]), events[1..]))
  }

  /** Loaded and failed images were in view first. */
  predicate Consistent(s: State)
  {
    (s.isLoaded || s.hasError) ==> s.isInView
  }

  /**
   * Along any run the browser can produce, an image only loads or fails after
   * it came into view: the Pending, then in-view, then Loaded or Fallback order.
   */
  lemma {:induction false} DeliverableRunsStayConsistent(c: ImageConfig.Config, p: Props, s: State, events: seq<Event>)
    requires Consistent(s) && AllDeliverable(c, p, s, events)
    ensures Consistent(Run(p, s, events))
    decreases |events|
  {
    if events != [] {
      DeliverableRunsStayConsistent(c, p, Step(p, s, events[0]), events[1..]);
    }
  }

  /** One mounted OptimizedImage: its props, its state fields and its event handlers. */
  class LazyImage {
    const config: ImageConfig.Config
    const props: Props
    var isInView: bool
    var isLoaded: bool
    var hasError: bool
    var observing: bool

    /** The instance's state as a value. */
    function Snapshot(): State
      reads this
    {
      State(isInView, isLoaded, hasError, observing)
    }

    /** The first render, with the useState initial values. */
    constructor (config: ImageConfig.Config, props: Props)
      ensures this.config == config && this.props == props
      ensures Snapshot() == Initial(props)
      ensures isInView == (!props.lazy || props.priority) && !isLoaded && !hasError && !observing
    {
      this.config := config;
      this.props := props;
      isInView := !props.lazy || props.priority;
      isLoaded := false;
      hasError := false;
      observing := false;
    }

    /** The mount effect: priority or non-lazy images go in view; the others start being observed. */
    method RunEffect()
      modifies this
      ensures Snapshot() == Step(props, old(Snapshot()), Effect)
      ensures props.priority || !props.lazy ==> isInView && observing == old(observing)
      ensures !(props.priority || !props.lazy) ==> isInView == old(isInView) && observing
      ensures isLoaded == old(isLoaded) && hasError == old(hasError)
    {
      if props.priority || !props.lazy {
        isInView := true;
        return;
      }
      observing := true;
    }

    /** The observer callback: every intersecting entry sets isInView and unobserves the element. */
    method OnIntersection(entries: seq<bool>)
      modifies this
      ensures Snapshot() == Step(props, old(Snapshot()), Intersection(entries))
      ensures isInView == (old(isInView) || true in entries)
      ensures observing == (old(observing) && true !in entries)
      ensures isLoaded == old(isLoaded) && hasError == old(hasError)
    {
      var i := 0;
      while i < |entries|
        invariant 0 <= i <= |entries|
        invariant isInView == (old(isInView) || true in entries[..i])
        invariant observing == (old(observing) && true !in entries[..i])
        invariant isLoaded == old(isLoaded) && hasError == old(hasError)
      {
        assert entries[..i + 1] == entries[..i] + [entries[i]];
        if entries[i] {
          isInView := true;
          observing := false;
        }
        i := i + 1;
      }
      assert entries[..i] == entries;
    }

    /** handleLoad. */
    method HandleLoad()
      modifies this
      ensures Snapshot() == Step(props, old(Snapshot()), Load)
      ensures Grows(old(Snapshot()), Snapshot())
      ensures isLoaded && isInView == old(isInView) && hasError == old(hasError) && observing == old(observing)
    {
      isLoaded := true;
    }

    /** handleError; the console message is not modelled. */
    method HandleError()
      modifies this
      ensures Snapshot() == Step(props, old(Snapshot()), Error)
      ensures Grows(old(Snapshot()), Snapshot())
      ensures hasError && isInView == old(isInView) && isLoaded == old(isLoaded) && observing == old(observing)
    {
      hasError := true;
    }

    /** What the instance renders now. */
    function Rendered(): (m: Markup)
      reads this
      ensures m.FallbackBox? <==> hasError
      ensures ShowsImg(m) <==> isInView && !hasError
    {
      Render(config, props, Snapshot())
    }
  }
}
