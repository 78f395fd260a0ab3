/** The mod's main logic: which screens are loading screens, the crossfading
    slideshow `renderBackground` drives from frame to frame, and the guarded
    reload of resource packs that provide backgrounds. */
module LoadingBackgrounds {
  import opened Jvm
  import opened Configs
  import opened Pngs

  // ---------------------------------------------------------------------
  // Loading messages and loading screens

  /** What a chat component holds: a translation key, or anything else. */
  datatype Contents = Translatable(key: string) | Plain(text: string)

  /** A chat component and the components appended to it. */
  datatype Component = Component(contents: Contents, siblings: seq<Component>)

  /** The translation keys of Minecraft's loading and saving messages. */
  const LoadingMessageTranslationKeys: set<string> := {
    "menu.generatingLevel",
    "menu.generatingTerrain",
    "menu.loadingForcedChunks",
    "menu.loadingLevel",
    "menu.preparingSpawn",
    "menu.savingChunks",
    "menu.savingLevel",
    "menu.working",
    "multiplayer.downloadingStats",
    "multiplayer.downloadingTerrain",
    "selectWorld.data_read",
    "selectWorld.loading_list",
    "selectWorld.resource_load",
    "resourcepack.downloading",
    "resourcepack.progress",
    "download.pack.title"
  }

  /** A component is a loading message when it is translatable with one of
      those keys, or when one of its siblings is, recursively. */
  predicate IsLoadingComponent(component: Component) {
    || (component.contents.Translatable? && component.contents.key in LoadingMessageTranslationKeys)
    || (exists i | 0 <= i < |component.siblings| :: IsLoadingComponent(component.siblings[i]))
  }

  /** `isLoadingMessage`: null is not a loading message. */
  predicate IsLoadingMessage(component: Option<Component>) {
    component.Some? && IsLoadingComponent(component.value)
  }

  /** Every translation key that occurs anywhere in a component tree. */
  ghost function TranslationKeys(component: Component): set<string>
  {
    (if component.contents.Translatable? then {component.contents.key} else {})
    + (set i, k | 0 <= i < |component.siblings| && k in TranslationKeys(component.siblings[i]) :: k)
  }

  /** A component is a loading message iff one of the loading keys occurs
      somewhere in its tree. */
  lemma {:induction false} LoadingMessageByKeys(component: Component)
    ensures IsLoadingComponent(component) <==> TranslationKeys(component) * LoadingMessageTranslationKeys != {}
  {
    forall i | 0 <= i < |component.siblings| {
      LoadingMessageByKeys(component.siblings[i]);
    }
    if IsLoadingComponent(component) {
      if component.contents.Translatable? && component.contents.key in LoadingMessageTranslationKeys {
        assert component.contents.key in TranslationKeys(component) * LoadingMessageTranslationKeys;
      } else {
        var i :| 0 <= i < |component.siblings| && IsLoadingComponent(component.siblings[i]);
        var k :| k in TranslationKeys(component.siblings[i]) * LoadingMessageTranslationKeys;
        assert k in TranslationKeys(component) * LoadingMessageTranslationKeys;
      }
    } else {
      forall k | k in TranslationKeys(component)
        ensures k !in LoadingMessageTranslationKeys
      {
        if !(component.contents.Translatable? && k == component.contents.key) {
          var i :| 0 <= i < |component.siblings| && k in TranslationKeys(component.siblings[i]);
          assert !IsLoadingComponent(component.siblings[i]);
        }
      }
    }
  }

  /** The kinds of screen `isLoadingScreen` recognises by class. */
  datatype ScreenKind = ProgressScreen | ConnectScreen | LevelLoading | ReceivingLevel | OtherScreen

  /** A screen: its class and its title. */
  datatype Screen = Screen(kind: ScreenKind, title: Component)

  /** `isLoadingScreen`: one of the four loading screen classes, or any
      screen whose title is a loading message. */
  predicate IsLoadingScreen(screen: Screen) {
    screen.kind != OtherScreen || IsLoadingMessage(Some(screen.title))
  }

  /** A screen is a loading screen iff it is one of the four loading screen
      classes or one of the loading keys occurs somewhere in its title. */
  lemma LoadingScreenByKeys(screen: Screen)
    ensures IsLoadingScreen(screen)
        <==> screen.kind != OtherScreen || TranslationKeys(screen.title) * LoadingMessageTranslationKeys != {}
  {
    LoadingMessageByKeys(screen.title);
  }

  // ---------------------------------------------------------------------
  // The slideshow

  /** `Iterators.cycle(pngs)` over a non-empty list: the list, and the index
      of the element the next call to `next()` returns. */
  datatype Cycle = Cycle(items: seq<Png>, position: nat) {

    predicate Valid() {
      0 < |items| && position < |items|
    }

    /** `next()`: the element at the position, and the iterator moved on by
        one, back to the start after the last element. */
    function Next(): (r: (Png, Cycle))
      requires Valid()
      ensures r.1.Valid() && r.1.items == items
      ensures r.0 == items[position]
      ensures Back(r.1.position) == position
    {
      (items[position], Cycle(items, if position + 1 == |items| then 0 else position + 1))
    }

    /** The index one step back from `i`, round the end of the list. */
    function Back(i: nat): (j: nat)
      requires i < |items|
      ensures j < |items|
    {
      if i == 0 then |items| - 1 else i - 1
    }

    /** The element the last `next()` returned. */
    function Last(): Png
      requires Valid()
    {
      items[Back(position)]
    }

    /** The element the `next()` before that returned. */
    function BeforeLast(): Png
      requires Valid()
    {
      items[Back(Back(position))]
    }
  }

  /** The first `k` elements a cycle returns. */
  function Yields(c: Cycle, k: nat): (s: seq<Png>)
    requires c.Valid()
    ensures |s| == k
    decreases k
  {
    if k == 0 then [] else [c.Next().0] + Yields(c.Next().1, k - 1)
  }

  /** The index `i` places after `p` in a list of length `n`, round the end,
      for `i` at most one round. */
  function Ahead(p: nat, i: nat, n: nat): (j: nat)
    requires p < n && i <= n
    ensures j < n
  {
    if p + i < n then p + i else p + i - n
  }

  /** Within one round, the `i`-th element a cycle returns is the list
      element `i` places after its position, round the end. */
  lemma {:induction false} YieldsRotate(c: Cycle, k: nat)
    requires c.Valid() && k <= |c.items|
    ensures forall i | 0 <= i < k :: Yields(c, k)[i] == c.items[Ahead(c.position, i, |c.items|)]
    decreases k
  {
    if k > 0 {
      var n := |c.items|;
      var next := c.Next().1;
      var ys := Yields(c, k);
      var rest := Yields(next, k - 1);
      assert ys == [c.items[c.position]] + rest;
      YieldsRotate(next, k - 1);
      forall i | 0 <= i < k
        ensures ys[i] == c.items[Ahead(c.position, i, n)]
      {
        if i > 0 {
          assert ys[i] == rest[i - 1];
          AheadStep(c.position, next.position, i, n);
        }
      }
    }
  }

  /** One step of the cycle moves the reference index by one. */
  lemma AheadStep(p: nat, q: nat, i: nat, n: nat)
    requires p < n && 0 < i <= n && q == if p + 1 == n then 0 else p + 1
    ensures Ahead(q, i - 1, n) == Ahead(p, i, n)
  {
  }

  /** Over one round, as many calls as there are images, the cycle returns
      the list rotated to its position: every image exactly as often as it
      occurs in the list. */
  lemma EveryImageOncePerRound(c: Cycle)
    requires c.Valid()
    ensures Yields(c, |c.items|) == c.items[c.position..] + c.items[..c.position]
    ensures multiset(Yields(c, |c.items|)) == multiset(c.items)
  {
    YieldsRound(c.items, c.position);
    RotationKeepsMultiset(c.items, c.position);
  }

  /** The element-by-element step of `EveryImageOncePerRound`. */
  lemma YieldsRound(items: seq<Png>, p: nat)
    requires p < |items|
    ensures Yields(Cycle(items, p), |items|) == items[p..] + items[..p]
  {
    var n := |items|;
    var ys := Yields(Cycle(items, p), n);
    var rotated := items[p..] + items[..p];
    YieldsRotate(Cycle(items, p), n);
    forall i | 0 <= i < n
      ensures ys[i] == rotated[i]
    {
      if i < n - p {
        assert rotated[i] == items[p + i];
      } else {
        assert rotated[i] == items[i - (n - p)];
      }
    }
  }

  /** Rotating a list keeps its multiset of elements. */
  lemma RotationKeepsMultiset<T>(s: seq<T>, p: nat)
    requires p <= |s|
    ensures multiset(s[p..] + s[..p]) == multiset(s)
  {
    assert s == s[..p] + s[p..];
  }

  /** An opacity as the renderer receives it: a number, or NaN. */
  datatype Opacity = Opacity(value: real) | NaN

  /** `coerceIn(0.0, 1.0)`. */
  function Clamp(x: real): (r: real)
    ensures 0.0 <= r <= 1.0
    ensures 0.0 <= x <= 1.0 ==> r == x
    ensures x < 0.0 ==> r == 0.0
    ensures x > 1.0 ==> r == 1.0
  {
    if x < 0.0 then 0.0 else if x > 1.0 then 1.0 else x
  }

  /** The incoming image's opacity during a fade: elapsed time over fade
      time, clamped to 0..1. A zero fade time divides to an infinity, which
      clamps, or to NaN when no time has elapsed either. */
  function FadeOpacity(elapsed: real, fade: real): (o: Opacity)
    ensures o.Opacity? ==> 0.0 <= o.value <= 1.0
    ensures o.NaN? <==> fade == 0.0 && elapsed == 0.0
    ensures fade > 0.0 && 0.0 <= elapsed <= fade ==> o == Opacity(elapsed / fade)
    ensures fade > 0.0 && elapsed >= fade ==> o == Opacity(1.0)
  {
    if fade == 0.0 then
      if elapsed > 0.0 then Opacity(1.0) else if elapsed < 0.0 then Opacity(0.0) else NaN
    else Opacity(Clamp(elapsed / fade))
  }

  /** With a positive fade time the incoming image never gets fainter as
      time goes on. */
  lemma FadeOpacityMonotonic(e1: real, e2: real, fade: real)
    requires fade > 0.0 && e1 <= e2
    ensures FadeOpacity(e1, fade).value <= FadeOpacity(e2, fade).value
  {
    assert e1 / fade <= e2 / fade by {
      assert e2 / fade - e1 / fade == (e2 - e1) / fade;
    }
  }

  /** `renderPNG(screen, gui, png, brightness, opacity)`: one image drawn. */
  datatype Draw = Draw(png: Png, opacity: Opacity)

  /** The five variables `renderBackground` keeps between frames. */
  datatype Background = Background(
    pngIterator: Option<Cycle>,
    pngPrevious: Option<Png>,
    pngCurrent: Option<Png>,
    secondsAtChange: real,
    isFading: bool)

  /** Their values when the mod is loaded. */
  const Initial: Background := Background(None, None, None, 0.0, false)

  /** Once there is an iterator, the current image is the one it returned
      last and the previous image the one before. */
  predicate Consistent(b: Background) {
    b.pngIterator.Some? ==>
      && b.pngIterator.value.Valid()
      && b.pngCurrent == Some(b.pngIterator.value.Last())
      && b.pngPrevious == Some(b.pngIterator.value.BeforeLast())
  }

  /** What one frame does: the variables after it, what `renderBackground`
      returns (or throws), and the images it draws, in order. */
  datatype Frame = Frame(state: Background, result: Result<bool>, draws: seq<Draw>)

  function RealMax(a: real, b: real): real {
    if a >= b then a else b
  }

  /** The images are re-acquired when there are none yet, or when no frame
      has been drawn for 5 seconds longer than a stay or a fade lasts. */
  predicate Stale(b: Background, now: real, config: Config) {
    b.pngIterator.None? || now - b.secondsAtChange > RealMax(config.secondsFade, config.secondsStay) + 5.0
  }

  /** The phase handling of a frame, `elapsed` seconds after the last change. */
  function Phase(b: Background, elapsed: real, now: real, config: Config): (f: Frame)
    requires Consistent(b) && b.pngIterator.Some?
    ensures Consistent(f.state) && f.state.pngIterator.Some?
    ensures f.result == Success(true)
    ensures 0 < |f.draws| && forall d | d in f.draws :: d.png in f.state.pngIterator.value.items
  {
    var c := b.pngIterator.value;
    if b.isFading then
      var draws := [Draw(b.pngPrevious.value, Opacity(1.0)),
                    Draw(b.pngCurrent.value, FadeOpacity(elapsed, config.secondsFade))];
      if elapsed > config.secondsFade then
        Frame(b.(secondsAtChange := now, isFading := false), Success(true), draws)
      else
        Frame(b, Success(true), draws)
    else
      var draws := [Draw(b.pngCurrent.value, Opacity(1.0))];
      if elapsed > config.secondsStay then
        var (png, rest) := c.Next();
        Frame(b.(secondsAtChange := now, isFading := true, pngPrevious := b.pngCurrent,
                 pngCurrent := Some(png), pngIterator := Some(rest)),
              Success(true), draws)
      else
        Frame(b, Success(true), draws)
  }

  /** One call of `renderBackground` on `screen` at time `now`; `selection`
      is what `selectPNGs()` gives (the images, or the exception it throws)
      and is consulted only when the images are re-acquired. */
  function Step(b: Background, screen: Screen, now: real, config: Config, selection: Result<seq<Png>>): (f: Frame)
    requires Consistent(b)
    ensures Consistent(f.state)
    ensures !IsLoadingScreen(screen) ==> f == Frame(b, Success(false), [])
    ensures f.result == Success(true) <==> 0 < |f.draws|
    ensures 0 < |f.draws| ==>
              f.state.pngIterator.Some? && forall d | d in f.draws :: d.png in f.state.pngIterator.value.items
    ensures forall d | d in f.draws :: d.opacity.Opacity? ==> 0.0 <= d.opacity.value <= 1.0
    ensures f.state.secondsAtChange == b.secondsAtChange || f.state.secondsAtChange == now
    ensures f.result.Failure? ==> selection.Failure? && f.result.exception == selection.exception
  {
    if !IsLoadingScreen(screen) then
      Frame(b, Success(false), [])
    else if Stale(b, now, config) then
      var reset := b.(secondsAtChange := now, isFading := false);
      match selection
      case Failure(e) => Frame(reset, Failure(e), [])
      case Success(pngs) =>
        if |pngs| == 0 then Frame(reset, Success(false), [])
        else
          var (first, c1) := Cycle(pngs, 0).Next();
          var (second, c2) := c1.Next();
          Phase(reset.(pngIterator := Some(c2), pngPrevious := Some(first), pngCurrent := Some(second)),
                0.0, now, config)
    else
      Phase(b, now - b.secondsAtChange, now, config)
  }

  /** `renderBackground` and the variables it keeps. */
  class BackgroundRenderer {
    var pngIterator: Option<Cycle>
    var pngPrevious: Option<Png>
    var pngCurrent: Option<Png>
    var secondsAtChange: real
    var isFading: bool

    function State(): Background
      reads this
    {
      Background(pngIterator, pngPrevious, pngCurrent, secondsAtChange, isFading)
    }

    ghost predicate Valid()
      reads this
    {
      Consistent(State())
    }

    constructor ()
      ensures Valid() && State() == Initial
    {
      pngIterator := None;
      pngPrevious := None;
      pngCurrent := None;
      secondsAtChange := 0.0;
      isFading := false;
    }

    /** One frame: `now` is what the clock reads, and `selection` what the
        call to `selectPNGs()` gives if the images are re-acquired. */
    method RenderBackground(screen: Screen, now: real, config: Config, selection: Result<seq<Png>>)
      returns (r: Result<bool>, draws: seq<Draw>)
      requires Valid()
      modifies this
      ensures Valid()
      ensures Frame(State(), r, draws) == Step(old(State()), screen, now, config, selection)
    {
      if !IsLoadingScreen(screen) {
        return Success(false), [];
      }

      var secondsNow := now;
      var secondsSinceChange := secondsNow - secondsAtChange;

      if pngIterator.None? || secondsSinceChange > RealMax(config.secondsFade, config.secondsStay) + 5.0 {
        secondsSinceChange := 0.0;

        secondsAtChange := secondsNow;
        isFading := false;

        if selection.Failure? {
          return Failure(selection.exception), [];
        }
        var pngs := selection.value;
        if |pngs| == 0 {
          return Success(false), [];
        }

        AcquireImages(pngs);
      }

      draws := RenderPhase(secondsNow, secondsSinceChange, config);
      return Success(true), draws;
    }

    /** A new cycle over `pngs`, advanced twice: the first image becomes the
        previous one and the second the current one. */
    method AcquireImages(pngs: seq<Png>)
      requires 0 < |pngs|
      modifies this
      ensures Valid()
      ensures var (first, c1) := Cycle(pngs, 0).Next();
              var (second, c2) := c1.Next();
              State() == old(State()).(pngIterator := Some(c2), pngPrevious := Some(first), pngCurrent := Some(second))
    {
      pngIterator := Some(Cycle(pngs, 0));

      var next := pngIterator.value.Next();
      pngPrevious, pngIterator := Some(next.0), Some(next.1);
      next := pngIterator.value.Next();
      pngCurrent, pngIterator := Some(next.0), Some(next.1);
    }

    /** The phase handling of `renderBackground`, `secondsSinceChange`
        seconds after the last change. */
    method RenderPhase(secondsNow: real, secondsSinceChange: real, config: Config) returns (draws: seq<Draw>)
      requires Valid() && pngIterator.Some?
      modifies this
      ensures Valid()
      ensures Frame(State(), Success(true), draws) == Phase(old(State()), secondsSinceChange, secondsNow, config)
    {
      if isFading {
        draws := [Draw(pngPrevious.value, Opacity(1.0)),
                  Draw(pngCurrent.value, FadeOpacity(secondsSinceChange, config.secondsFade))];
        if secondsSinceChange > config.secondsFade {
          secondsAtChange := secondsNow;
          isFading := false;
        }
      } else {
        draws := [Draw(pngCurrent.value, Opacity(1.0))];
        if secondsSinceChange > config.secondsStay {
          secondsAtChange := secondsNow;
          isFading := true;
          pngPrevious := pngCurrent;
          var next := pngIterator.value.Next();
          pngCurrent, pngIterator := Some(next.0), Some(next.1);
        }
      }
    }
  }

  /** Re-acquiring: the clock restarts and the phase is steady; a selection
      that fails or finds nothing leaves the images as they were, and a
      non-empty one restarts the cycle from its first element, the first
      as previous and the next one as current, drawn fully. A negative stay
      time is already exceeded in that frame, so a fade to the third
      element starts at once. */
  lemma Reacquire(b: Background, screen: Screen, now: real, config: Config, selection: Result<seq<Png>>)
    requires Consistent(b) && IsLoadingScreen(screen) && Stale(b, now, config)
    ensures var f := Step(b, screen, now, config, selection);
            && (selection.Failure? ==>
                  f == Frame(b.(secondsAtChange := now, isFading := false), Failure(selection.exception), []))
            && (selection == Success([]) ==>
                  f == Frame(b.(secondsAtChange := now, isFading := false), Success(false), []))
            && (selection.Success? && 0 < |selection.value| ==>
                  var pngs := selection.value;
                  var second := if |pngs| == 1 then pngs[0] else pngs[1];
                  var rest := Cycle(pngs, if |pngs| <= 2 then 0 else 2);
                  && f.result == Success(true)
                  && f.draws == [Draw(second, Opacity(1.0))]
                  && (config.secondsStay >= 0.0 ==>
                        f.state == Background(Some(rest), Some(pngs[0]), Some(second), now, false))
                  && (config.secondsStay < 0.0 ==>
                        f.state == Background(Some(rest.Next().1), Some(second), Some(rest.Next().0), now, true)))
  {
  }

  /** Between re-acquisitions the selection is not consulted at all. */
  lemma SelectionOnlyWhenStale(b: Background, screen: Screen, now: real, config: Config,
                               s1: Result<seq<Png>>, s2: Result<seq<Png>>)
    requires Consistent(b) && !Stale(b, now, config)
    ensures Step(b, screen, now, config, s1) == Step(b, screen, now, config, s2)
  {
  }

  /** A fade draws the outgoing image fully and the incoming one with the
      fade opacity; once more than the fade time has passed, the phase turns
      steady and the clock restarts, with the images unchanged. */
  lemma FadeFrame(b: Background, screen: Screen, now: real, config: Config, selection: Result<seq<Png>>)
    requires Consistent(b) && IsLoadingScreen(screen) && !Stale(b, now, config) && b.isFading
    ensures var f := Step(b, screen, now, config, selection);
            var elapsed := now - b.secondsAtChange;
            && f.draws == [Draw(b.pngPrevious.value, Opacity(1.0)),
                           Draw(b.pngCurrent.value, FadeOpacity(elapsed, config.secondsFade))]
            && f.state.pngIterator == b.pngIterator
            && f.state.pngPrevious == b.pngPrevious && f.state.pngCurrent == b.pngCurrent
            && (elapsed > config.secondsFade ==> !f.state.isFading && f.state.secondsAtChange == now)
            && (elapsed <= config.secondsFade ==> f.state == b)
  {
  }

  /** A steady frame draws the current image fully; once more than the stay
      time has passed, a fade starts from it to the next image of the
      cycle, and the clock restarts. */
  lemma SteadyFrame(b: Background, screen: Screen, now: real, config: Config, selection: Result<seq<Png>>)
    requires Consistent(b) && IsLoadingScreen(screen) && !Stale(b, now, config) && !b.isFading
    ensures var f := Step(b, screen, now, config, selection);
            var c := b.pngIterator.value;
            var elapsed := now - b.secondsAtChange;
            && f.draws == [Draw(b.pngCurrent.value, Opacity(1.0))]
            && (elapsed > config.secondsStay ==>
                  && f.state.isFading && f.state.secondsAtChange == now
                  && f.state.pngPrevious == b.pngCurrent
                  && f.state.pngCurrent == Some(c.items[c.position])
                  && f.state.pngIterator == Some(c.Next().1))
            && (elapsed <= config.secondsStay ==> f.state == b)
  {
  }

  /** A run of frames with the default settings over three images A, B and
      C: the first frame shows B (in the first round A is not drawn at
      all; it first appears, fading in, when the cycle wraps);
      after the 5-second stay the fade to C starts, is half-way a quarter of
      a second in, and ends after half a second; a pause of more than 10
      seconds restarts the cycle, showing B again. */
  lemma DefaultTimeline(a: Png, bImage: Png, c: Png, screen: Screen)
    requires IsLoadingScreen(screen)
    ensures var pngs := Success([a, bImage, c]);
            var f1 := Step(Initial, screen, 1.0, Default, pngs);
            var f2 := Step(f1.state, screen, 6.5, Default, pngs);
            var f3 := Step(f2.state, screen, 6.75, Default, pngs);
            var f4 := Step(f3.state, screen, 7.5, Default, pngs);
            var f5 := Step(f4.state, screen, 20.0, Default, pngs);
            && f1.draws == [Draw(bImage, Opacity(1.0))]
            && f2.draws == [Draw(bImage, Opacity(1.0))] && f2.state.isFading
            && f3.draws == [Draw(bImage, Opacity(1.0)), Draw(c, Opacity(0.5))]
            && f4.draws == [Draw(bImage, Opacity(1.0)), Draw(c, Opacity(1.0))] && !f4.state.isFading
            && f5.draws == [Draw(bImage, Opacity(1.0))]
  {
    var pngs := Success([a, bImage, c]);
    var f1 := Step(Initial, screen, 1.0, Default, pngs);
    assert f1.state == Background(Some(Cycle([a, bImage, c], 2)), Some(a), Some(bImage), 1.0, false);
    var f2 := Step(f1.state, screen, 6.5, Default, pngs);
    assert f2.state == Background(Some(Cycle([a, bImage, c], 0)), Some(bImage), Some(c), 6.5, true);
    var f3 := Step(f2.state, screen, 6.75, Default, pngs);
    assert f3.state == f2.state;
    var f4 := Step(f3.state, screen, 7.5, Default, pngs);
    assert f4.state == Background(Some(Cycle([a, bImage, c], 0)), Some(bImage), Some(c), 7.5, false);
  }

  // ---------------------------------------------------------------------
  // Resource packs

  /** An available resource pack: its id and its title as a string. */
  datatype Pack = Pack(id: string, title: string)

  function Ids(packs: seq<Pack>): (ids: seq<string>)
    ensures |ids| == |packs| && forall i | 0 <= i < |packs| :: ids[i] == packs[i].id
  {
    seq(|packs|, i requires 0 <= i < |packs| => packs[i].id)
  }

  /** The ids of the packs whose id or title the background-pack pattern
      finds a match in; `matches` stands for the pattern's search. */
  function MatchingIds(packs: seq<Pack>, matches: string -> bool): (ids: set<string>)
    ensures forall id | id in ids :: exists i | 0 <= i < |packs| :: packs[i].id == id
  {
    set i | 0 <= i < |packs| && (matches(packs[i].id) || matches(packs[i].title)) :: packs[i].id
  }

  /** Looking at one more pack adds its id iff it matches. */
  lemma MatchingIdsAppend(packs: seq<Pack>, pack: Pack, matches: string -> bool)
    ensures MatchingIds(packs + [pack], matches)
         == MatchingIds(packs, matches) + (if matches(pack.id) || matches(pack.title) then {pack.id} else {})
  {
    var all := packs + [pack];
    assert forall i | 0 <= i < |packs| :: all[i] == packs[i];
    assert all[|packs|] == pack;
  }

  /** The pack repository's selection and the `reloadResourcePacks` guard. */
  class PackReloader {
    /** `reloadResourcePacksHash`: the hash of the pack ids last looked at. */
    var reloadResourcePacksHash: int
    /** The ids of the selected packs. */
    var selected: set<string>
    /** How many resource reloads have been started. */
    var reloads: nat

    constructor (selected: set<string>)
      ensures reloadResourcePacksHash == 0 && this.selected == selected && reloads == 0
    {
      reloadResourcePacksHash := 0;
      this.selected := selected;
      reloads := 0;
    }

    /** `addPack(id)` for an available pack: true iff it was not yet selected. */
    method AddPack(id: string) returns (added: bool)
      modifies this
      ensures added <==> id !in old(selected)
      ensures selected == old(selected) + {id}
      ensures reloadResourcePacksHash == old(reloadResourcePacksHash) && reloads == old(reloads)
    {
      added := id !in selected;
      selected := selected + {id};
    }

    /** The loop of `reloadResourcePacks()`: every pack whose id or title
        matches is added, and the result says whether any was not selected
        before. */
    method AddMatchingPacks(available: seq<Pack>, matches: string -> bool) returns (added: bool)
      modifies this
      ensures selected == old(selected) + MatchingIds(available, matches)
      ensures added <==> !(MatchingIds(available, matches) <= old(selected))
      ensures reloadResourcePacksHash == old(reloadResourcePacksHash) && reloads == old(reloads)
    {
      added := false;

      for i := 0 to |available|
        invariant reloadResourcePacksHash == old(reloadResourcePacksHash) && reloads == old(reloads)
        invariant selected == old(selected) + MatchingIds(available[..i], matches)
        invariant added <==> !(MatchingIds(available[..i], matches) <= old(selected))
      {
        var pack := available[i];
        assert available[..i + 1] == available[..i] + [pack];
        MatchingIdsAppend(available[..i], pack, matches);
        if matches(pack.id) || matches(pack.title) {
          var addedNow := AddPack(pack.id);
          added := addedNow || added;
        }
      }
      assert available[..|available|] == available;
    }

    /** `reloadResourcePacks()` over the available packs: when the hash of
        their ids equals the one last seen, nothing happens; otherwise the
        hash is recorded, every matching pack is selected, and a reload is
        started iff that selected a pack that was not selected before. */
    method ReloadResourcePacks(available: seq<Pack>, matches: string -> bool) returns (reloaded: bool)
      modifies this
      ensures var newHash := ListHashCode(Ids(available));
              && (old(reloadResourcePacksHash) == newHash ==>
                    !reloaded && reloadResourcePacksHash == newHash
                    && selected == old(selected) && reloads == old(reloads))
              && (old(reloadResourcePacksHash) != newHash ==>
                    && reloadResourcePacksHash == newHash
                    && selected == old(selected) + MatchingIds(available, matches)
                    && (reloaded <==> !(MatchingIds(available, matches) <= old(selected)))
                    && reloads == old(reloads) + (if reloaded then 1 else 0))
    {
      var newHash := ListHashCode(Ids(available));
      var oldHash := reloadResourcePacksHash;
      if oldHash == newHash {
        return false;
      }
      reloadResourcePacksHash := newHash;

      var added := AddMatchingPacks(available, matches);

      if added {
        reloads := reloads + 1;
        return true;
      } else {
        return false;
      }
    }

    /** `selectPNGLocationsOrReload()`: `listed` is what listing the
        background textures gives, and `relisted` what it gives after a
        reload was started. Only an empty listing with resource loading
        enabled tries the reload. */
    method SelectPngLocationsOrReload(listed: seq<Location>, config: Config, available: seq<Pack>,
                                      matches: string -> bool, relisted: seq<Location>)
      returns (locations: seq<Location>)
      modifies this
      ensures listed != [] || !config.shouldLoadResources ==>
                locations == listed
                && reloadResourcePacksHash == old(reloadResourcePacksHash)
                && selected == old(selected) && reloads == old(reloads)
      ensures listed == [] && config.shouldLoadResources ==>
                var newHash := ListHashCode(Ids(available));
                var newPack := !(MatchingIds(available, matches) <= old(selected));
                && reloadResourcePacksHash == newHash
                && (old(reloadResourcePacksHash) == newHash ==>
                      selected == old(selected) && reloads == old(reloads) && locations == [])
                && (old(reloadResourcePacksHash) != newHash ==>
                      && selected == old(selected) + MatchingIds(available, matches)
                      && reloads == old(reloads) + (if newPack then 1 else 0)
                      && locations == (if newPack then relisted else []))
    {
      locations := listed;
      if |locations| == 0 && config.shouldLoadResources {
        var reloaded := ReloadResourcePacks(available, matches);
        if reloaded {
          locations := relisted;
        }
      }
    }
  }

  /** The hash guard: looking at the same packs twice in a row never
      reloads the second time, and the first time reloads iff the list's
      hash differs from the starting 0 and a matching pack was not selected. */
  method ReloadTwice(selected: set<string>, available: seq<Pack>, matches: string -> bool)
    returns (first: bool, second: bool)
    ensures first <==> ListHashCode(Ids(available)) != 0 && !(MatchingIds(available, matches) <= selected)
    ensures !second
  {
    var reloader := new PackReloader(selected);
    first := reloader.ReloadResourcePacks(available, matches);
    second := reloader.ReloadResourcePacks(available, matches);
  }

  /** `"Aa".hashCode() == "BB".hashCode()`, so the one-element lists of
      those ids hash alike. */
  lemma HashesCollide()
    ensures ListHashCode(Ids([Pack("Aa", "")])) == ListHashCode(Ids([Pack("BB", "")])) == 2143
  {
    assert StringHashCode("Aa") == 2112 by {
      assert "Aa"[..1] == "A" && "A"[..0] == "";
    }
    assert StringHashCode("BB") == 2112 by {
      assert "BB"[..1] == "B" && "B"[..0] == "";
    }
    assert Ids([Pack("Aa", "")]) == ["Aa"] && Ids([Pack("BB", "")]) == ["BB"];
    assert ["Aa"][..0] == [] && ["BB"][..0] == [];
  }

  /** The guard compares hashes, not lists: the pack lists ["Aa"] and
      ["BB"] hash alike, so a newly available matching pack "BB" is not
      selected when the list seen before it was ["Aa"], whatever the
      pattern makes of "Aa". */
  method CollidingPackLists(matches: string -> bool) returns (first: bool, second: bool, selected: set<string>)
    requires matches("BB")
    ensures !second && "BB" !in selected
  {
    var reloader := new PackReloader({});
    HashesCollide();
    first := reloader.ReloadResourcePacks([Pack("Aa", "")], matches);
    second := reloader.ReloadResourcePacks([Pack("BB", "")], matches);
    selected := reloader.selected;
  }
}
