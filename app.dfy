/**
 * The stateful part of the page component in src/App.jsx: the carousel's
 * current slide with its next, previous and go-to handlers and the
 * highlighted indicator, and the five-colour palette with its change and
 * reset handlers. Each handler replaces one state field with the result of a
 * pure updater; the updaters are functions here and the component is the
 * class AppState.
 */
module App {

  /** carouselItems.length: the carousel has four slides. */
  const SlideCount: nat := 4

  /** JavaScript's `%` on integers: the remainder takes the sign of the dividend. */
  function JsRemainder(a: int, n: int): (r: int)
    requires n > 0
    ensures a >= 0 ==> r == a % n && 0 <= r < n
    ensures a < 0 ==> -n < r <= 0
    ensures exists q: int :: a == q * n + r
  {
    if a >= 0 then
      assert a == (a / n) * n + a % n;
      a % n
    else
      var r := -((-a) % n);
      assert -a == ((-a) / n) * n + (-a) % n;
      assert a == (-((-a) / n)) * n + r;
      r
  }

  /** The nextSlide updater: `(prev + 1) % n`. */
  function NextIndex(i: int, n: nat): (r: int)
    requires n > 0
    ensures 0 <= i < n ==> r == if i == n - 1 then 0 else i + 1
  {
    JsRemainder(i + 1, n)
  }

  /** The prevSlide updater: `(prev - 1 + n) % n`. */
  function PrevIndex(i: int, n: nat): (r: int)
    requires n > 0
    ensures 0 <= i < n ==> r == if i == 0 then n - 1 else i - 1
  {
    JsRemainder(i - 1 + n, n)
  }

  /** Going back undoes going forward, and the other way round. */
  lemma PrevUndoesNext(i: int, n: nat)
    requires 0 <= i < n
    ensures PrevIndex(NextIndex(i, n), n) == i
    ensures NextIndex(PrevIndex(i, n), n) == i
  {
  }

  /** The slide reached by pressing "next" k times. */
  function NextTimes(i: int, k: nat, n: nat): int
    requires n > 0
  {
    if k == 0 then i else NextIndex(NextTimes(i, k - 1, n), n)
  }

  /** Within one turn of the carousel, k presses of "next" move k slides on, wrapping past the last. */
  lemma {:induction false} NextTimesWithinTurn(i: int, k: nat, n: nat)
    requires 0 <= i < n && k <= n
    ensures NextTimes(i, k, n) == if i + k < n then i + k else i + k - n
  {
    if k > 0 {
      NextTimesWithinTurn(i, k - 1, n);
    }
  }

  /** Pressing "next" a times and then b times is pressing it a + b times. */
  lemma {:induction false} NextTimesCompose(i: int, a: nat, b: nat, n: nat)
    requires n > 0
    ensures NextTimes(NextTimes(i, a, n), b, n) == NextTimes(i, a + b, n)
  {
    if b > 0 {
      NextTimesCompose(i, a, b - 1, n);
    }
  }

  /** A full turn of n presses brings every slide back to itself. */
  lemma FullTurn(i: int, n: nat)
    requires 0 <= i < n
    ensures NextTimes(i, n, n) == i
  {
    NextTimesWithinTurn(i, n, n);
  }

  /** So the slide reached after k presses depends on k only modulo n. */
  lemma {:induction false} NextTimesPeriodic(i: int, k: nat, n: nat)
    requires 0 <= i < n
    ensures NextTimes(i, k + n, n) == NextTimes(i, k, n)
  {
    NextTimesCompose(i, n, k, n);
    FullTurn(i, n);
  }

  /** For this carousel: four presses of "next" return to the starting slide. */
  lemma FourNextsReturn(i: int)
    requires 0 <= i < SlideCount
    ensures NextTimes(i, 4, SlideCount) == i
  {
    FullTurn(i, SlideCount);
  }

  /** The indicator row: `currentSlide === index` marks the primary button. */
  function Indicators(current: int, n: nat): (r: seq<bool>)
    ensures |r| == n
  {
    seq(n, k => k == current)
  }

  /**
   * Exactly one indicator, the one of the current slide, is primary while the
   * slide is in range; none is otherwise.
   */
  lemma ExactlyOnePrimaryIndicator(current: int, n: nat)
    ensures 0 <= current < n ==> (set k | 0 <= k < n && Indicators(current, n)[k]) == {current}
    ensures 0 <= current < n ==> |set k | 0 <= k < n && Indicators(current, n)[k]| == 1
    ensures !(0 <= current < n) ==> (set k | 0 <= k < n && Indicators(current, n)[k]) == {}
  {
    var primary := set k | 0 <= k < n && Indicators(current, n)[k];
    if 0 <= current < n {
      assert Indicators(current, n)[current];
      assert primary == {current};
    } else {
      assert primary == {};
    }
  }

  /** The colour palette: CSS custom-property names to colour strings. */
  type Palette = map<string, string>

  const PaletteKeys: set<string> := {"lightBg", "darkBg", "header", "footer", "text"}

  /** The initial palette, which resetColors restores: one colour for each of the five keys. */
  function DefaultPalette(): (p: Palette)
    ensures p.Keys == PaletteKeys
  {
    map["lightBg" := "#fafaf9", "darkBg" := "#e7e5e4", "header" := "#ffffff", "footer" := "#292524", "text" := "#1c1917"]
  }

  /** The handleColorChange updater: a copy of the palette with one key overridden. */
  function ChangeColor(p: Palette, key: string, value: string): (r: Palette)
    ensures r.Keys == p.Keys + {key}
    ensures key in r && r[key] == value
    ensures forall k :: k in p && k != key ==> r[k] == p[k]
  {
    p[key := value]
  }

  /** A sequence of colour changes, applied in order. */
  function ApplyChanges(p: Palette, changes: seq<(string, string)>): Palette
    decreases |changes|
  {
    if changes == [] then p else ApplyChanges(ChangeColor(p, changes[0].0, changes[0].1), changes[1..])
  }

  /** Changes made through the five colour pickers keep exactly the five palette keys. */
  lemma {:induction false} PickerChangesKeepKeys(p: Palette, changes: seq<(string, string)>)
    requires p.Keys == PaletteKeys
    requires forall i :: 0 <= i < |changes| ==> changes[i].0 in PaletteKeys
    ensures ApplyChanges(p, changes).Keys == PaletteKeys
    decreases |changes|
  {
    if changes != [] {
      PickerChangesKeepKeys(ChangeColor(p, changes[0].0, changes[0].1), changes[1..]);
    }
  }

  /** A key no change touches keeps its colour. */
  lemma {:induction false} UntouchedColorKept(p: Palette, changes: seq<(string, string)>, key: string)
    requires key in p
    requires forall i :: 0 <= i < |changes| ==> changes[i].0 != key
    ensures key in ApplyChanges(p, changes) && ApplyChanges(p, changes)[key] == p[key]
    decreases |changes|
  {
    if changes != [] {
      UntouchedColorKept(ChangeColor(p, changes[0].0, changes[0].1), changes[1..], key);
    }
  }

  /** Changes to two different colours do not interfere, in either order. */
  lemma ChangesToDifferentKeysCommute(p: Palette, a: string, x: string, b: string, y: string)
    requires a != b
    ensures ChangeColor(ChangeColor(p, a, x), b, y) == ChangeColor(ChangeColor(p, b, y), a, x)
  {
  }

  /** The App component's state: the current slide and the palette. */
  class AppState {
    var currentSlide: int
    var colors: Palette

    /** The states the page's own controls can reach. */
    ghost predicate Valid()
      reads this
    {
      0 <= currentSlide < SlideCount && colors.Keys == PaletteKeys
    }

    /** The first render: slide 0 and the default palette. */
    constructor ()
      ensures currentSlide == 0 && colors == DefaultPalette()
      ensures Valid()
    {
      currentSlide := 0;
      colors := DefaultPalette();
    }

    /** nextSlide. */
    method NextSlide()
      modifies this`currentSlide
      ensures currentSlide == NextIndex(old(currentSlide), SlideCount)
      ensures old(Valid()) ==> Valid()
    {
      currentSlide := JsRemainder(currentSlide + 1, SlideCount);
    }

    /** prevSlide. */
    method PrevSlide()
      modifies this`currentSlide
      ensures currentSlide == PrevIndex(old(currentSlide), SlideCount)
      ensures old(Valid()) ==> Valid()
    {
      currentSlide := JsRemainder(currentSlide - 1 + SlideCount, SlideCount);
    }

    /** goToSlide: the indicators pass their own index, which is always in range. */
    method GoToSlide(index: int)
      modifies this`currentSlide
      ensures currentSlide == index
      ensures old(Valid()) && 0 <= index < SlideCount ==> Valid()
    {
      currentSlide := index;
    }

    /** handleColorChange. */
    method HandleColorChange(key: string, value: string)
      modifies this`colors
      ensures colors == ChangeColor(old(colors), key, value)
      ensures old(Valid()) && key in PaletteKeys ==> Valid()
    {
      colors := colors[key := value];
    }

    /** resetColors. */
    method ResetColors()
      modifies this`colors
      ensures colors == DefaultPalette()
      ensures colors.Keys == PaletteKeys
    {
      colors := DefaultPalette();
    }
  }
}
