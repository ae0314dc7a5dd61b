/**
 * The slideshow controller as a state machine. A `State` holds the
 * controller's fields together with what the engine keeps for it: the video
 * player, the skybox material, the exposure values written so far and the
 * coroutines suspended at a `yield return`. Each engine callback and each
 * coroutine resumption is one atomic `Step`.
 *
 * A fade that a coroutine starts runs to completion when it starts: its 101
 * exposure writes are appended to `exposure` at once, and the waits between
 * them are not modelled.
 */
module SceneState {
  import opened Wrappers
  import opened Strings
  import opened PanoramaViewer
  import opened FileOperations
  import opened PanoramicSkyboxControl
  import opened Navigation

  /** A coroutine suspended at a `yield return`, named after what it does when resumed. */
  datatype Routine =
    | ChangeAfterFadeOut        // ChangePanorama, after the pre-switch fade-out
    | ChangeAfterFadeIn         // ChangePanorama, after the fade-in of an image
    | ImageFadeOutWait          // ImageFadeOut, after the image delay
    | ImageFadeOutAdvance       // ImageFadeOut, after its fade-out
    | VideoFadeOutWait(delay: real)  // VideoFadeOut, after its delay
    | UnlockWait                // UnlockTransition, after the fade duration

  /** The parts of Unity's `VideoPlayer` the controller uses. */
  datatype Player = Player(url: string, preparing: bool, playing: bool, targetTexture: Option<Surface>)

  /**
   * The controller's fields (`viewerSettings`, `mediaFiles`,
   * `currentMediaIndex`, `appMessage`, `transitionLock`, `firstRun`,
   * `videoPlayer`) and the engine's: the panoramic skybox material (None
   * until `Start` creates it), every exposure numerator written, in order,
   * and the suspended coroutines.
   */
  datatype State = State(
    settings: ViewerSettings,
    mediaFiles: seq<string>,
    currentMediaIndex: int,
    appMessage: Option<string>,
    transitionLock: bool,
    firstRun: bool,
    player: Option<Player>,
    skybox: Option<Material>,
    exposure: seq<int>,
    pending: multiset<Routine>)

  /** The field initialisers, before `Start` runs. */
  function InitialState(): (s: State)
    ensures s.currentMediaIndex == -1 && s.appMessage.None?
    ensures s.transitionLock && s.firstRun
    ensures s.settings == DefaultSettings()
  {
    State(DefaultSettings(), [], -1, None, true, true, None, None, [], multiset{})
  }

  /** The message shown when the media directory holds no file that passes the filter. */
  function NotFoundMessage(mediaDir: string): string {
    "Media files not found\n\nAdd files to\n\"" + mediaDir + "\"\nand restart application"
  }

  const LoadingMessage: string := "Loading ..."

  /** What `ChangePanorama` relies on: a non-empty media list, a video player and a skybox. */
  predicate Ready(s: State) {
    s.player.Some? && s.skybox.Some? && |s.mediaFiles| > 0
  }

  /**
   * The invariant of every reachable state:
   *   - before a successful `Start` nothing has moved and nothing is suspended;
   *   - afterwards the index is a valid position in the non-empty list;
   *   - the lock is free only after a first media file was shown, and then
   *     no message covers the screen;
   *   - during the first run at most the first image's fade-in is under way
   *     and the player neither prepares nor plays, and a playing video is
   *     never covered by the message;
   *   - a coroutine is suspended only once the message has been cleared.
   */
  predicate Valid(s: State) {
    && (s.player.None? ==> s.currentMediaIndex == -1 && s.firstRun && s.transitionLock && s.pending == multiset{})
    && (s.player.Some? ==> Ready(s) && 0 <= s.currentMediaIndex < |s.mediaFiles|)
    && (!s.transitionLock ==> !s.firstRun && s.appMessage.None?)
    && (s.pending != multiset{} ==> s.appMessage.None?)
    && (s.firstRun ==> s.pending <= multiset{ChangeAfterFadeIn})
    && (s.player.Some? && (s.player.value.preparing || s.player.value.playing) ==> !s.firstRun)
    && (s.player.Some? && s.player.value.playing ==> s.appMessage.None?)
  }

  lemma InitialStateValid()
    ensures Valid(InitialState())
  {
  }

  // ---------------------------------------------------------------------
  // The steps of ChangePanorama
  // ---------------------------------------------------------------------

  /** Whether `ChangePanorama` fades the current media out before switching. */
  predicate PreFadeOut(s: State) {
    !s.settings.autoPlay && !s.firstRun
  }

  /**
   * The `switch` of `ChangePanorama` on the current file's extension, up to
   * the image fade-in or to the end: a video is handed to the player to
   * prepare; an image is installed on the skybox and faded in, and the rest
   * of the coroutine waits for that fade; any other file is skipped.
   */
  function SwitchMedia(s: State, images: string -> Surface): (t: State)
    requires Ready(s) && 0 <= s.currentMediaIndex < |s.mediaFiles|
    ensures Ready(t)
    ensures t.settings == s.settings && t.mediaFiles == s.mediaFiles
    ensures t.currentMediaIndex == s.currentMediaIndex && t.transitionLock == s.transitionLock
  {
    var file := s.mediaFiles[s.currentMediaIndex];
    match Classify(GetExtension(file), s.settings)
    case Video =>
      s.(player := Some(s.player.value.(url := file, preparing := true)), firstRun := false)
    case Image =>
      s.(player := Some(s.player.value.(playing := false)),
         skybox := Some(UpdateSkyboxMainTexture(s.skybox.value, images(file))),
         appMessage := None,
         exposure := s.exposure + FadeRamp(true),
         pending := s.pending + multiset{ChangeAfterFadeIn})
    case Unclassified =>
      s.(firstRun := false)
  }

  /**
   * What the switch does for each kind of file: only an image suspends the
   * coroutine (its fade-in) and keeps the first run going; only a video
   * starts a preparation; an unclassified file changes nothing but `firstRun`.
   */
  lemma SwitchMediaEffects(s: State, images: string -> Surface)
    requires Ready(s) && 0 <= s.currentMediaIndex < |s.mediaFiles|
    ensures var t := SwitchMedia(s, images);
      var file := s.mediaFiles[s.currentMediaIndex];
      var kind := Classify(GetExtension(file), s.settings);
      && (t.firstRun <==> s.firstRun && kind == Image)
      && (t.pending == if kind == Image then s.pending + multiset{ChangeAfterFadeIn} else s.pending)
      && (t.exposure == if kind == Image then s.exposure + FadeRamp(true) else s.exposure)
      && (t.player.value.preparing <==> s.player.value.preparing || kind == Video)
      && (t.player.value.playing <==> s.player.value.playing && kind != Image)
      && (kind == Video ==> t.player.value.url == file)
      && (kind == Image ==> t.appMessage.None? && t.skybox.value.mainTexture == Some(images(file)))
      && (kind != Image ==> t.appMessage == s.appMessage && t.skybox == s.skybox)
  {
  }

  /**
   * `ChangePanorama(direction)` up to its first `yield return` or its end:
   * take the lock, move the index, and either fade out first (the switch
   * then waits in `ChangeAfterFadeOut`) or switch at once.
   */
  function ChangePanoramaStep(s: State, direction: string, images: string -> Surface): (t: State)
    requires Ready(s)
    ensures Ready(t) && t.transitionLock
    ensures 0 <= t.currentMediaIndex < |s.mediaFiles|
    ensures t.mediaFiles == s.mediaFiles && t.settings == s.settings
  {
    var moved := s.(transitionLock := true, currentMediaIndex := NextIndex(s.currentMediaIndex, direction, |s.mediaFiles|));
    if PreFadeOut(s) then
      moved.(exposure := s.exposure + FadeRamp(false), pending := s.pending + multiset{ChangeAfterFadeOut})
    else
      SwitchMedia(moved, images)
  }

  /**
   * The index moves as `NextIndex` says, and the pre-switch fade-out (and
   * the wait for it) happens exactly when autoplay is off and this is not
   * the first run.
   */
  lemma ChangePanoramaEffects(s: State, direction: string, images: string -> Surface)
    requires Ready(s)
    ensures var t := ChangePanoramaStep(s, direction, images);
      && t.currentMediaIndex == NextIndex(s.currentMediaIndex, direction, |s.mediaFiles|)
      && s.exposure <= t.exposure
      && (t.exposure == s.exposure + FadeRamp(false) <==> PreFadeOut(s))
      && (PreFadeOut(s) ==> t.firstRun == s.firstRun && t.pending == s.pending + multiset{ChangeAfterFadeOut})
  {
    var t := ChangePanoramaStep(s, direction, images);
    if !PreFadeOut(s) {
      var moved := s.(transitionLock := true, currentMediaIndex := NextIndex(s.currentMediaIndex, direction, |s.mediaFiles|));
      SwitchMediaEffects(moved, images);
      if t.exposure != s.exposure {
        assert t.exposure[|s.exposure|] == FadeRamp(true)[0];
      }
    }
  }

  // ---------------------------------------------------------------------
  // Coroutine resumptions and engine callbacks
  // ---------------------------------------------------------------------

  /** `ChangePanorama` resumed after its pre-switch fade-out: the switch. */
  function PreFadeDone(s: State, images: string -> Surface): (t: State)
    requires Ready(s) && 0 <= s.currentMediaIndex < |s.mediaFiles| && ChangeAfterFadeOut in s.pending
    ensures Ready(t) && t.currentMediaIndex == s.currentMediaIndex
  {
    SwitchMedia(s.(pending := s.pending - multiset{ChangeAfterFadeOut}), images)
  }

  /** `ImageFadeOut` after its fade-out: `ChangePanorama("next")` starts. */
  function ImageFadeOutDone(s: State, images: string -> Surface): (t: State)
    requires Ready(s) && ImageFadeOutAdvance in s.pending
    ensures Ready(t) && t.transitionLock
  {
    ChangePanoramaStep(s.(pending := s.pending - multiset{ImageFadeOutAdvance}), "next", images)
  }

  /** The rest of `ChangePanorama` after the fade-in of an image: release the lock, start `ImageFadeOut` under autoplay. */
  function ImageShown(s: State): (t: State)
    requires ChangeAfterFadeIn in s.pending
    ensures !t.transitionLock && !t.firstRun
    ensures t.pending[ImageFadeOutWait] == s.pending[ImageFadeOutWait] + (if s.settings.autoPlay then 1 else 0)
    ensures t.pending[ChangeAfterFadeIn] == s.pending[ChangeAfterFadeIn] - 1
  {
    var rest := s.pending - multiset{ChangeAfterFadeIn};
    var unlocked := s.(pending := rest, transitionLock := false);
    var scheduled := if s.settings.autoPlay then unlocked.(pending := rest + multiset{ImageFadeOutWait}) else unlocked;
    scheduled.(firstRun := false)
  }

  /** `ImageFadeOut` after the image delay: fade out, then wait for that fade. */
  function ImageDelayElapsed(s: State): (t: State)
    requires ImageFadeOutWait in s.pending
    ensures t.exposure == s.exposure + FadeRamp(false)
    ensures t.pending == s.pending - multiset{ImageFadeOutWait} + multiset{ImageFadeOutAdvance}
  {
    s.(exposure := s.exposure + FadeRamp(false),
       pending := s.pending - multiset{ImageFadeOutWait} + multiset{ImageFadeOutAdvance})
  }

  /** `VideoFadeOut` after its delay: the fade-out it starts. */
  function VideoDelayElapsed(s: State, delay: real): (t: State)
    requires VideoFadeOutWait(delay) in s.pending
    ensures t.exposure == s.exposure + FadeRamp(false)
    ensures t.pending == s.pending - multiset{VideoFadeOutWait(delay)}
    ensures t.transitionLock == s.transitionLock && t.currentMediaIndex == s.currentMediaIndex
  {
    s.(exposure := s.exposure + FadeRamp(false), pending := s.pending - multiset{VideoFadeOutWait(delay)})
  }

  /** `UnlockTransition` after the fade duration: the lock is released. */
  function UnlockDelayElapsed(s: State): (t: State)
    requires UnlockWait in s.pending
    ensures !t.transitionLock
    ensures t.pending == s.pending - multiset{UnlockWait}
    ensures t.exposure == s.exposure && t.currentMediaIndex == s.currentMediaIndex
  {
    s.(transitionLock := false, pending := s.pending - multiset{UnlockWait})
  }

  /** The seconds before a video's end at which autoplay starts its fade-out. */
  function VideoFadeOutDelay(settings: ViewerSettings, length: real): real {
    length - settings.fadeDuration - 1.0
  }

  /**
   * `OnVideoPrepared`: under autoplay schedule the fade-out before the
   * video's end, render the video into a new texture on the skybox, clear
   * the message, start `UnlockTransition` (a fade-in, then the lock release)
   * and play.
   */
  function VideoPrepared(s: State, width: Dim, height: Dim, length: real): (t: State)
    requires Ready(s) && s.player.value.preparing
    ensures Ready(t)
  {
    var surface := VideoTexture(s.player.value.url, width, height);
    var scheduled := if s.settings.autoPlay then s.pending + multiset{VideoFadeOutWait(VideoFadeOutDelay(s.settings, length))} else s.pending;
    PlayingOn(s.(pending := scheduled), surface)
  }

  /**
   * The second half of `OnVideoPrepared`: the player renders into `surface`,
   * which the skybox shows, the message is cleared, `UnlockTransition` starts
   * and the video plays.
   */
  function PlayingOn(s: State, surface: Surface): (t: State)
    requires Ready(s)
    ensures Ready(t)
  {
    s.(pending := s.pending + multiset{UnlockWait},
       player := Some(s.player.value.(preparing := false, playing := true, targetTexture := Some(surface))),
       appMessage := None,
       skybox := Some(UpdateSkyboxMainTexture(s.skybox.value, surface)),
       exposure := s.exposure + FadeRamp(true))
  }

  /**
   * A prepared video plays into a texture of its size that the skybox
   * shows, the message is gone, the fade-in has run, the lock release is
   * pending, and under autoplay (only) the fade-out before its end is too.
   */
  lemma VideoPreparedEffects(s: State, width: Dim, height: Dim, length: real)
    requires Ready(s) && s.player.value.preparing
    ensures var t := VideoPrepared(s, width, height, length);
      && t.player.value.playing && !t.player.value.preparing && t.appMessage.None?
      && t.player.value.targetTexture == Some(VideoTexture(s.player.value.url, width, height))
      && t.skybox.value.mainTexture == t.player.value.targetTexture
      && t.exposure == s.exposure + FadeRamp(true)
      && t.pending[UnlockWait] == s.pending[UnlockWait] + 1
      && t.pending[VideoFadeOutWait(VideoFadeOutDelay(s.settings, length))]
         == s.pending[VideoFadeOutWait(VideoFadeOutDelay(s.settings, length))] + (if s.settings.autoPlay then 1 else 0)
      && t.transitionLock == s.transitionLock && t.currentMediaIndex == s.currentMediaIndex
  {
  }

  /** `OnVideoEnd`: under autoplay the next media file; otherwise nothing. */
  function VideoEnded(s: State, images: string -> Surface): (t: State)
    requires Ready(s)
    ensures !s.settings.autoPlay ==> t == s
    ensures s.settings.autoPlay ==> t == ChangePanoramaStep(s, "next", images)
  {
    if s.settings.autoPlay then ChangePanoramaStep(s, "next", images) else s
  }

  /** `Update` without the quit request: the arrow and page keys act only when the lock is free and autoplay is off. */
  function KeysDown(s: State, keys: set<Key>, images: string -> Surface): (t: State)
    requires !s.transitionLock && !s.settings.autoPlay ==> Ready(s)
    ensures s.transitionLock || s.settings.autoPlay || KeyDirection(keys).None? ==> t == s
    ensures !s.transitionLock && !s.settings.autoPlay && KeyDirection(keys).Some? ==>
      t == ChangePanoramaStep(s, KeyDirection(keys).value, images)
  {
    if !s.transitionLock && !s.settings.autoPlay then
      match KeyDirection(keys)
      case Some(direction) => ChangePanoramaStep(s, direction, images)
      case None => s
    else s
  }

  /** `Start` up to the empty-list check: the skybox blacked out and dropped, the settings loaded, the listing filtered. */
  function BlackedOut(settings: ViewerSettings, directoryFiles: seq<string>): State {
    InitialState().(settings := settings,
                    mediaFiles := GetFilesFromDir(directoryFiles, Some(settings.imageFormats + settings.videoFormats)),
                    exposure := [0])
  }

  /** The panoramic material installed, the player created and "Loading ..." shown. */
  function Loading(s: State, material: Material): State {
    s.(skybox := Some(material), player := Some(Player("", false, false, None)), appMessage := Some(LoadingMessage))
  }

  /**
   * `Start` from the initial state: black out the skybox, take the loaded
   * settings, filter the directory listing and either report that no media
   * was found or create the panoramic material and the player and show the
   * first file.
   */
  function Started(settings: ViewerSettings, directoryFiles: seq<string>, mediaDir: string,
                   material: Material, images: string -> Surface): (t: State)
    ensures t.settings == settings
    ensures t.mediaFiles == GetFilesFromDir(directoryFiles, Some(settings.imageFormats + settings.videoFormats))
    ensures t.mediaFiles == [] <==> t.player.None?
  {
    var blackedOut := BlackedOut(settings, directoryFiles);
    if blackedOut.mediaFiles == [] then
      blackedOut.(appMessage := Some(NotFoundMessage(mediaDir)))
    else
      DirectionWords();
      ChangePanoramaStep(Loading(blackedOut, material), "next", images)
  }

  /**
   * After `Start` the exposure was first set to 0 and the loaded settings and
   * the filtered listing are in place; with an empty listing only the
   * "not found" message is new, otherwise the first file is being shown.
   */
  lemma StartedEffects(settings: ViewerSettings, directoryFiles: seq<string>, mediaDir: string,
                       material: Material, images: string -> Surface)
    ensures var t := Started(settings, directoryFiles, mediaDir, material, images);
      && t.settings == settings
      && t.mediaFiles == GetFilesFromDir(directoryFiles, Some(settings.imageFormats + settings.videoFormats))
      && |t.exposure| >= 1 && t.exposure[0] == 0
      && (t.mediaFiles == [] ==>
            t == InitialState().(settings := settings, exposure := [0], appMessage := Some(NotFoundMessage(mediaDir))))
      && (t.mediaFiles != [] ==> Ready(t) && t.currentMediaIndex == 0 && t.transitionLock)
  {
    var blackedOut := BlackedOut(settings, directoryFiles);
    if blackedOut.mediaFiles != [] {
      DirectionWords();
      ChangePanoramaEffects(Loading(blackedOut, material), "next", images);
    }
  }

  // ---------------------------------------------------------------------
  // Events
  // ---------------------------------------------------------------------

  /** What can happen to the controller: the engine's calls and the resumption of a suspended coroutine. */
  datatype Event =
    | StartCalled(settings: ViewerSettings, directoryFiles: seq<string>, mediaDir: string, material: Material)
    | Frame(keys: set<Key>)
    | Resume(routine: Routine)
    | PrepareCompleted(width: Dim, height: Dim, length: real)
    | LoopPointReached

  /**
   * When the engine can deliver an event: `Start` once, at the beginning;
   * `Update` every frame; a coroutine when it is suspended; the prepare
   * callback while a preparation is under way; the loop point while playing.
   */
  predicate Enabled(s: State, e: Event) {
    match e
    case StartCalled(_, _, _, _) => s == InitialState()
    case Frame(_) => true
    case Resume(r) => r in s.pending
    case PrepareCompleted(_, _, _) => s.player.Some? && s.player.value.preparing
    case LoopPointReached => s.player.Some? && s.player.value.playing
  }

  /** The effect of one event. */
  function Step(s: State, e: Event, images: string -> Surface): State
    requires Valid(s) && Enabled(s, e)
  {
    match e
    case StartCalled(settings, files, mediaDir, material) => Started(settings, files, mediaDir, material, images)
    case Frame(keys) => KeysDown(s, keys, images)
    case Resume(r) => (
      match r
      case ChangeAfterFadeOut => PreFadeDone(s, images)
      case ChangeAfterFadeIn => ImageShown(s)
      case ImageFadeOutWait => ImageDelayElapsed(s)
      case ImageFadeOutAdvance => ImageFadeOutDone(s, images)
      case VideoFadeOutWait(delay) => VideoDelayElapsed(s, delay)
      case UnlockWait => UnlockDelayElapsed(s))
    case PrepareCompleted(width, height, length) => VideoPrepared(s, width, height, length)
    case LoopPointReached => VideoEnded(s, images)
  }

  // ---------------------------------------------------------------------
  // Properties of the state machine
  // ---------------------------------------------------------------------

  /** The switch keeps the invariant, provided nothing is suspended yet during the first run. */
  lemma SwitchMediaKeepsValid(s: State, images: string -> Surface)
    requires Valid(s) && 0 <= s.currentMediaIndex < |s.mediaFiles|
    requires s.player.Some? && (s.firstRun ==> s.pending == multiset{})
    ensures Valid(SwitchMedia(s, images))
  {
    SwitchMediaEffects(s, images);
  }

  /**
   * `ChangePanorama` keeps the invariant when it is started the way the
   * controller starts it: during the first run with nothing suspended, and
   * afterwards with no message on the screen.
   */
  lemma ChangePanoramaKeepsValid(s: State, direction: string, images: string -> Surface)
    requires Valid(s) && s.player.Some?
    requires s.firstRun ==> s.pending == multiset{}
    requires !s.firstRun ==> s.appMessage.None?
    ensures Valid(ChangePanoramaStep(s, direction, images))
  {
    ChangePanoramaEffects(s, direction, images);
    if !PreFadeOut(s) {
      var moved := s.(transitionLock := true, currentMediaIndex := NextIndex(s.currentMediaIndex, direction, |s.mediaFiles|));
      SwitchMediaKeepsValid(moved, images);
    }
  }

  /** `Start` from the initial state ends in a valid state. */
  lemma StartedValid(settings: ViewerSettings, directoryFiles: seq<string>, mediaDir: string,
                     material: Material, images: string -> Surface)
    ensures Valid(Started(settings, directoryFiles, mediaDir, material, images))
  {
    var blackedOut := BlackedOut(settings, directoryFiles);
    if blackedOut.mediaFiles != [] {
      var loading := Loading(blackedOut, material);
      DirectionWords();
      var moved := loading.(transitionLock := true, currentMediaIndex := NextIndex(-1, "next", |loading.mediaFiles|));
      assert moved.currentMediaIndex == 0;
      assert ChangePanoramaStep(loading, "next", images) == SwitchMedia(moved, images);
      SwitchMediaEffects(moved, images);
    }
  }

  /** `OnVideoPrepared` keeps the invariant. */
  lemma VideoPreparedValid(s: State, width: Dim, height: Dim, length: real)
    requires Valid(s) && s.player.Some? && s.player.value.preparing
    ensures Valid(VideoPrepared(s, width, height, length))
  {
    VideoPreparedEffects(s, width, height, length);
  }

  /** The resumption of a suspended coroutine keeps the invariant. */
  lemma ResumeKeepsValid(s: State, r: Routine, images: string -> Surface)
    requires Valid(s) && r in s.pending
    ensures Valid(Step(s, Resume(r), images))
  {
    var rest := s.pending - multiset{r};
    assert r != ChangeAfterFadeIn ==> !s.firstRun;
    match r {
      case ChangeAfterFadeOut =>
        SwitchMediaKeepsValid(s.(pending := rest), images);
      case ImageFadeOutAdvance =>
        ChangePanoramaKeepsValid(s.(pending := rest), "next", images);
      case ChangeAfterFadeIn =>
      case ImageFadeOutWait =>
      case VideoFadeOutWait(delay) =>
      case UnlockWait =>
    }
  }

  /** Every event keeps the invariant. */
  lemma StepPreservesValid(s: State, e: Event, images: string -> Surface)
    requires Valid(s) && Enabled(s, e)
    ensures Valid(Step(s, e, images))
  {
    match e {
      case StartCalled(settings, files, mediaDir, material) =>
        StartedValid(settings, files, mediaDir, material, images);
      case Frame(keys) =>
        if !s.transitionLock && !s.settings.autoPlay && KeyDirection(keys).Some? {
          ChangePanoramaKeepsValid(s, KeyDirection(keys).value, images);
        }
      case Resume(r) =>
        ResumeKeepsValid(s, r, images);
      case PrepareCompleted(width, height, length) =>
        VideoPreparedValid(s, width, height, length);
      case LoopPointReached =>
        if s.settings.autoPlay {
          ChangePanoramaKeepsValid(s, "next", images);
        }
    }
  }

  /** The state after a run of events, or None when one of them cannot happen. */
  function Run(s: State, events: seq<Event>, images: string -> Surface): (r: Option<State>)
    requires Valid(s)
    ensures r.Some? ==> Valid(r.value)
    decreases |events|
  {
    if events == [] then Some(s)
    else if !Enabled(s, events[0]) then None
    else
      StepPreservesValid(s, events[0], images);
      Run(Step(s, events[0], images), events[1..], images)
  }

  /** Whatever happens, the index stays a position in the media list once the player exists. */
  lemma IndexStaysInRange(events: seq<Event>, images: string -> Surface)
    requires Run(InitialState(), events, images).Some?
    ensures var t := Run(InitialState(), events, images).value;
      t.player.Some? ==> 0 <= t.currentMediaIndex < |t.mediaFiles|
    ensures var t := Run(InitialState(), events, images).value;
      t.player.None? ==> t.currentMediaIndex == -1
  {
    InitialStateValid();
  }

  /** Only the end of an image fade-in and `UnlockTransition` ever release the lock. */
  lemma LockReleasedOnlyAfterFadeIn(s: State, e: Event, images: string -> Surface)
    requires Valid(s) && Enabled(s, e) && s.transitionLock
    requires !Step(s, e, images).transitionLock
    ensures e == Resume(ChangeAfterFadeIn) || e == Resume(UnlockWait)
  {
    match e {
      case StartCalled(settings, files, mediaDir, material) =>
      case Frame(keys) =>
      case Resume(r) =>
      case PrepareCompleted(width, height, length) =>
      case LoopPointReached =>
    }
  }

  /** Once cleared, `firstRun` stays cleared under every event. */
  lemma FirstRunStepsStayCleared(s: State, e: Event, images: string -> Surface)
    requires Valid(s) && Enabled(s, e) && !s.firstRun
    ensures !Step(s, e, images).firstRun
  {
  }

  /** Once cleared, `firstRun` stays cleared for good. */
  lemma {:induction false} FirstRunStaysCleared(s: State, events: seq<Event>, images: string -> Surface)
    requires Valid(s) && !s.firstRun && Run(s, events, images).Some?
    ensures !Run(s, events, images).value.firstRun
    decreases |events|
  {
    if events != [] {
      FirstRunStepsStayCleared(s, events[0], images);
      StepPreservesValid(s, events[0], images);
      FirstRunStaysCleared(Step(s, events[0], images), events[1..], images);
    }
  }

  /** Before a first media file has been shown no key moves the slideshow. */
  lemma NoNavigationBeforeFirstMedia(s: State, keys: set<Key>, images: string -> Surface)
    requires Valid(s) && s.firstRun
    ensures Step(s, Frame(keys), images) == s
  {
  }

  /** A state in which the slideshow waits for nothing: the lock is held and no coroutine or player callback is due. */
  predicate Idle(s: State) {
    && s != InitialState()
    && s.transitionLock
    && s.pending == multiset{}
    && (s.player.Some? ==> !s.player.value.preparing && !s.player.value.playing)
  }

  /** An idle state is final: every event that can still happen leaves it as it is. */
  lemma IdleIsFinal(s: State, e: Event, images: string -> Surface)
    requires Valid(s) && Idle(s) && Enabled(s, e)
    ensures Step(s, e, images) == s
  {
  }

  lemma {:induction false} IdleStaysIdle(s: State, events: seq<Event>, images: string -> Surface)
    requires Valid(s) && Idle(s)
    ensures Run(s, events, images) == None || Run(s, events, images) == Some(s)
    decreases |events|
  {
    if events != [] && Enabled(s, events[0]) {
      IdleIsFinal(s, events[0], images);
      IdleStaysIdle(s, events[1..], images);
    }
  }

  /** With nothing to show, `Start` leaves the "not found" message up and no `ChangePanorama` ever runs. */
  lemma EmptyListStaysIdle(settings: ViewerSettings, directoryFiles: seq<string>, mediaDir: string,
                           material: Material, images: string -> Surface, events: seq<Event>)
    requires GetFilesFromDir(directoryFiles, Some(settings.imageFormats + settings.videoFormats)) == []
    ensures var t := Started(settings, directoryFiles, mediaDir, material, images);
      && t.appMessage == Some(NotFoundMessage(mediaDir))
      && t.currentMediaIndex == -1 && t.player.None?
      && (Run(t, events, images) == None || Run(t, events, images) == Some(t))
  {
    var t := Started(settings, directoryFiles, mediaDir, material, images);
    assert t.appMessage != InitialState().appMessage;
    IdleStaysIdle(t, events, images);
  }

  /** The default settings keep "notes.txt" in the listing but classify it as neither image nor video. */
  lemma TextFileKeptButUnclassified()
    ensures GetFilesFromDir(["notes.txt"], Some(DefaultSettings().imageFormats + DefaultSettings().videoFormats)) == ["notes.txt"]
    ensures Classify(GetExtension("notes.txt"), DefaultSettings()) == Unclassified
  {
    TextFileKept();
    FilterSingle("notes.txt");
    NotesExtension();
    DefaultClassification();
  }

  /**
   * A listing with only a text file passes the filter but is neither image
   * nor video: the slideshow stays on "Loading ..." for good.
   */
  lemma TextFileOnlyStaysLoading(mediaDir: string, material: Material, images: string -> Surface)
    ensures var t := Started(DefaultSettings(), ["notes.txt"], mediaDir, material, images);
      && t.mediaFiles == ["notes.txt"]
      && t.appMessage == Some(LoadingMessage)
      && Valid(t) && Idle(t)
  {
    TextFileKeptButUnclassified();
    var loading := Loading(BlackedOut(DefaultSettings(), ["notes.txt"]), material);
    DirectionWords();
    var moved := loading.(transitionLock := true, currentMediaIndex := NextIndex(-1, "next", 1));
    assert moved.currentMediaIndex == 0;
    var t := Started(DefaultSettings(), ["notes.txt"], mediaDir, material, images);
    assert t == SwitchMedia(moved, images);
    SwitchMediaEffects(moved, images);
    StartedValid(DefaultSettings(), ["notes.txt"], mediaDir, material, images);
  }
}
