# PanoramaViewer slideshow controller, modelled in Dafny

PanoramaViewer is a Unity application that shows the panoramic images and videos of one media directory on the skybox, one after the other. This project models the two scripts that drive that slideshow.

`SceneController` is the MonoBehaviour that owns these fields:

- the settings;
- the filtered media list;
- the current index;
- the on-screen message;
- the transition lock;
- the first-run flag.

It reacts to `Start`, `Update`, the video player's callbacks and its own coroutines. `PanoramaViewer.cs` supplies the rest:

- the settings record;
- the directory filter;
- the greatest-common-divisor and aspect-ratio helpers;
- the exposure fade;
- the layout choice of the panoramic skybox material.

Files:

- `wrappers.dfy`: `Option`.
- `strings.dfy`: lower-casing, substring search, `Path.GetExtension` and decimal text.
- `viewer_settings.dfy` (`PanoramaViewer`): `ViewerSettings` and its defaults.
- `file_operations.dfy` (`FileOperations`): `GetFilesFromDir` over a listing given as a list of paths.
- `skybox_control.dfy` (`PanoramicSkyboxControl`):
  - `FindGCD`, as a loop proved to compute the greatest common divisor;
  - `CalculateAspectRatio`, proved to name the reduced proportion of the two sides;
  - `SkyboxFadeTransition`, as a loop proved to write the exposure ramp;
  - `UpdateSkyboxMainTexture`.
- `navigation.dfy` (`Navigation`): the index update of `ChangePanorama`, the extension `switch` and the key mapping.
- `scene_state.dfy` (`SceneState`): the controller as a state machine. It also holds the engine-side state the controller writes:
  - the video player;
  - the skybox material;
  - every exposure value written;
  - the coroutines suspended at a `yield return`.

  Each engine callback and each coroutine resumption is one atomic step, and the invariant `Valid` is proved to hold after every step.
- `scene_controller.dfy` (`Scene.SceneController`): the MonoBehaviour as a class whose fields the methods update in place. Each method's new state is tied to the step function of `SceneState` that describes it, and the properties of the slideshow are proved about those functions. The class predicate `Valid` is the same invariant on the fields. The constructor establishes it, and every engine-facing callback (`Start`, `Update`, `OnVideoPrepared`, `OnVideoEnd` and the coroutine resumptions) preserves it.

The coroutines are modelled as follows. A coroutine runs until its first `yield return` when it is started. It is then recorded in the multiset `pending` under the name of what it does when resumed. Resuming it is a separate event, which the engine may deliver at any later point. A fade started with `StartCoroutine`, or waited for with `yield return`, writes all its exposure values at once: the log gets the 101 numerators, and only the continuation after an awaited fade stays pending.

## Model

| member | source | states |
|---|---|---|
| PanoramaViewer.DefaultSettings | Assets/Scripts/PanoramaViewer.cs:13-17 | autoplay on, 15 s image delay, 2 s fade, images ".jpg" and ".png", videos ".mp4" and ".webm" |
| FileOperations.GetFilesFromDir | Assets/Scripts/PanoramaViewer.cs:22-27 | a null extension list returns the listing unchanged; otherwise the result keeps exactly the files that pass the per-file test, in directory order |
| FileOperations.FilterKeepsPassingFiles | Assets/Scripts/PanoramaViewer.cs:26 | the `Where` filter is an order-keeping sub-list of the listing, and a file is in it iff it is listed and contains its own lower-cased extension |
| FileOperations.FilterAppend | Assets/Scripts/PanoramaViewer.cs:26 | each file is judged on its own: filtering a concatenation gives the concatenation of the filtered parts |
| FileOperations.FilterSingle | Assets/Scripts/PanoramaViewer.cs:26 | a one-file listing keeps its file iff the file passes the test |
| FileOperations.ExtensionsIgnored | Assets/Scripts/PanoramaViewer.cs:25-26 | the result is the same whichever non-null extension list is passed |
| FileOperations.LowerCaseExtensionKept | Assets/Scripts/PanoramaViewer.cs:26 | every file whose extension has no upper-case letter passes, whatever the formats are |
| FileOperations.TextFileKept | Assets/Scripts/PanoramaViewer.cs:26 | "notes.txt" passes the filter although ".txt" is in no format list |
| FileOperations.UpperCaseExtensionDropped | Assets/Scripts/PanoramaViewer.cs:26 | "IMG.JPG" has the extension ".JPG" and is dropped, because ".jpg" does not occur in it |
| PanoramicSkyboxControl.GcdIsGreatest | Assets/Scripts/PanoramaViewer.cs:40-49 | the Euclidean gcd divides both arguments, and every common divisor divides it |
| PanoramicSkyboxControl.FindGCD | Assets/Scripts/PanoramaViewer.cs:40-49 | the loop returns the greatest common divisor of its non-negative arguments, and returns `a` when `b` is 0 |
| PanoramicSkyboxControl.CalculateAspectRatio | Assets/Scripts/PanoramaViewer.cs:51-55 | gives a ratio text for every size except 0 by 0, where the source divides by zero |
| PanoramicSkyboxControl.ReducedParts | Assets/Scripts/PanoramaViewer.cs:51-55 | the text is "p:q" where width and height are p and q times their gcd, and p and q are coprime |
| PanoramicSkyboxControl.RatioTextIsReducedProportion | Assets/Scripts/PanoramaViewer.cs:51-55 | a text "p:q" is produced only for coprime p, q in the proportion of width to height |
| PanoramicSkyboxControl.ReducedProportionGivesRatioText | Assets/Scripts/PanoramaViewer.cs:51-55 | coprime p, q in the proportion of width to height always produce the text "p:q" |
| PanoramicSkyboxControl.AspectRatioIsReducedProportion | Assets/Scripts/PanoramaViewer.cs:51-55 | both directions together: the text is "p:q" iff p:q is the reduced proportion of the sides |
| PanoramicSkyboxControl.AspectRatioScaleInvariant | Assets/Scripts/PanoramaViewer.cs:51-55 | scaling both sides by the same positive factor leaves the ratio text unchanged |
| PanoramicSkyboxControl.FadeKinds | Assets/Scripts/PanoramaViewer.cs:62-64 | examples of the case-insensitive comparison with "fadein": "fadeIn" and "FadeIn" fade in, while "fadeOut" and "" fade out |
| PanoramicSkyboxControl.FadeRamp | Assets/Scripts/PanoramaViewer.cs:63-69 | a fade writes 101 values; a fade-in starts at 1 and ends at 101, and a fade-out starts at 99 and ends at -1 |
| PanoramicSkyboxControl.FadeRampMonotone | Assets/Scripts/PanoramaViewer.cs:64-68 | a fade-in strictly raises the exposure and a fade-out strictly lowers it, one step of 1/100 per write |
| PanoramicSkyboxControl.FadeOvershoots | Assets/Scripts/PanoramaViewer.cs:64-68 | the last write of a fade-in is above full exposure and that of a fade-out is below zero |
| PanoramicSkyboxControl.SkyboxFadeTransition | Assets/Scripts/PanoramaViewer.cs:60-71 | the loop writes exactly the ramp of its kind, in order |
| PanoramicSkyboxControl.UpdateSkyboxMainTexture | Assets/Scripts/PanoramaViewer.cs:81-83 | the material's main texture becomes the given texture, whatever its size |
| PanoramicSkyboxControl.SkyboxLayoutSelection | Assets/Scripts/PanoramaViewer.cs:85-105 | a 2:1 texture gets the latitude-longitude layout 0 and a square one layout 2, both with six frames off; a 6:1 texture gets six frames with mapping 0; any other proportion changes only the main texture |
| Navigation.NextIndex | Assets/Scripts/SceneController.cs:84-87 | with a non-empty list the index lands in range: "next" moves forward and wraps from the last file to 0; any other direction moves back and wraps from the first file (or from -1) to the last |
| Navigation.DirectionWords | Assets/Scripts/SceneController.cs:84 | examples of the case-insensitive comparison with "next": "next", "Next" and "NEXT" go forward, while "prev", "" and "forward" go back |
| Navigation.OtherDirectionsGoBack | Assets/Scripts/SceneController.cs:84 | every direction string other than "next" moves the index exactly as "prev" does |
| Navigation.PrevUndoesNext | Assets/Scripts/SceneController.cs:84-87 | a move forwards followed by one backwards, in either order, returns to the same file |
| Navigation.AdvanceIsModular | Assets/Scripts/SceneController.cs:84-87 | k forward moves from index i land on (i + k) mod the list length |
| Navigation.FullCycle | Assets/Scripts/SceneController.cs:84-87 | after as many forward moves as there are files the slideshow is back on its file, and not sooner |
| Navigation.Classify | Assets/Scripts/SceneController.cs:92-110 | an extension is a video iff it is in the video formats, an image iff it is in the image formats but not the video ones, and otherwise skipped |
| Navigation.DefaultClassification | Assets/Scripts/SceneController.cs:93-99 | with the default settings ".jpg" is an image and ".webm" a video, while ".JPG" and ".txt" are neither |
| Navigation.KeyDirection | Assets/Scripts/SceneController.cs:35-45 | left arrow or page down ask for "prev" and win over right arrow or page up, which ask for "next"; other keys ask for nothing |
| SceneState.InitialState | Assets/Scripts/SceneController.cs:13-19 | index -1, no message, lock held, first run, default settings |
| SceneState.InitialStateValid | Assets/Scripts/SceneController.cs:13-19 | the field initialisers satisfy the controller's invariant |
| SceneState.SwitchMedia | Assets/Scripts/SceneController.cs:92-112 | the switch keeps the settings, list, index and lock, and the player and skybox stay available |
| SceneState.SwitchMediaEffects | Assets/Scripts/SceneController.cs:92-112 | only an image clears the message, installs its texture, fades in, suspends the coroutine and keeps the first run going; only a video starts a preparation of its file; a skipped file changes only the first-run flag |
| SceneState.ChangePanoramaStep | Assets/Scripts/SceneController.cs:81-112 | `ChangePanorama` leaves the lock held and an index in range, with the list and settings untouched |
| SceneState.ChangePanoramaEffects | Assets/Scripts/SceneController.cs:83-90 | the index moves as `NextIndex` says; the pre-switch fade-out runs, with the switch waiting for it, exactly when autoplay is off and the first run is over |
| SceneState.PreFadeDone | Assets/Scripts/SceneController.cs:90-92 | after the pre-switch fade the switch runs on the current index, which it keeps |
| SceneState.ImageFadeOutDone | Assets/Scripts/SceneController.cs:56-57 | after the autoplay fade-out `ChangePanorama("next")` starts and takes the lock |
| SceneState.ImageShown | Assets/Scripts/SceneController.cs:105-112 | after an image's fade-in the lock is released and the first run is over; `ImageFadeOut` is started iff autoplay is on |
| SceneState.ImageDelayElapsed | Assets/Scripts/SceneController.cs:55-56 | after the image delay a fade-out runs and the coroutine then waits for it |
| SceneState.VideoDelayElapsed | Assets/Scripts/SceneController.cs:49-50 | after the delay a fade-out runs; the lock and index are untouched |
| SceneState.UnlockDelayElapsed | Assets/Scripts/SceneController.cs:63-64 | after the fade duration the lock is released and nothing else is written |
| SceneState.VideoPrepared | Assets/Scripts/SceneController.cs:67-79 | the player and skybox stay available for the next `ChangePanorama` |
| SceneState.PlayingOn | Assets/Scripts/SceneController.cs:74-78 | the player and skybox stay available once the video is shown and played |
| SceneState.VideoEnded | Assets/Scripts/SceneController.cs:115 | with autoplay off the loop point changes nothing; with autoplay on it is exactly `ChangePanorama("next")` |
| SceneState.KeysDown | Assets/Scripts/SceneController.cs:164 | with the lock held, with autoplay on, or with no direction key pressed, a frame changes nothing; otherwise it is `ChangePanorama` in the direction `KeyDirection` picks |
| SceneState.Started | Assets/Scripts/SceneController.cs:118-159 | `Start` installs the loaded settings and the filtered listing, and creates the player iff the listing is not empty |
| SceneState.VideoPreparedEffects | Assets/Scripts/SceneController.cs:67-79 | the video plays into a new texture of its size that the skybox shows; the message is cleared and a fade-in runs; the lock release is pending, and so, under autoplay only, is the fade-out at length - fadeDuration - 1 |
| SceneState.StartedEffects | Assets/Scripts/SceneController.cs:118-159 | `Start` first writes exposure 0, then installs the loaded settings and the filtered list; with no file only the "not found" message is new; otherwise the first file (index 0) is being shown under the lock |
| SceneState.SwitchMediaKeepsValid | Assets/Scripts/SceneController.cs:92-112 | the switch keeps the invariant when nothing is suspended during the first run |
| SceneState.ChangePanoramaKeepsValid | Assets/Scripts/SceneController.cs:81-112 | `ChangePanorama`, started as the controller starts it, keeps the invariant |
| SceneState.StartedValid | Assets/Scripts/SceneController.cs:118-159 | `Start` from the field initialisers ends in a state satisfying the invariant |
| SceneState.VideoPreparedValid | Assets/Scripts/SceneController.cs:67-79 | `OnVideoPrepared` keeps the invariant |
| SceneState.ResumeKeepsValid | Assets/Scripts/SceneController.cs:47-112 | resuming any suspended coroutine keeps the invariant |
| SceneState.StepPreservesValid | Assets/Scripts/SceneController.cs:35-165 | every event the engine can deliver keeps the invariant: the index stays in range, the lock is free only after a first file was shown and with no message up, and a playing video is never under the message |
| SceneState.Run | Assets/Scripts/SceneController.cs:35-165 | every state reached by a run of possible events satisfies the invariant |
| SceneState.IndexStaysInRange | Assets/Scripts/SceneController.cs:84-87 | from start-up on, the index is -1 until the player exists and a valid list position afterwards |
| SceneState.LockReleasedOnlyAfterFadeIn | Assets/Scripts/SceneController.cs:64 | only the end of an image's fade-in and the end of `UnlockTransition`'s wait ever release a held lock |
| SceneState.FirstRunStepsStayCleared | Assets/Scripts/SceneController.cs:112 | no single event sets `firstRun` again once it is cleared |
| SceneState.FirstRunStaysCleared | Assets/Scripts/SceneController.cs:112 | once cleared, `firstRun` stays cleared through any run of events |
| SceneState.NoNavigationBeforeFirstMedia | Assets/Scripts/SceneController.cs:161-165 | during the first run, key presses change nothing |
| SceneState.IdleIsFinal | Assets/Scripts/SceneController.cs:161-165 | once the lock is held with no coroutine or player callback due, every possible event leaves the state as it is |
| SceneState.IdleStaysIdle | Assets/Scripts/SceneController.cs:161-165 | from such an idle state every run of events either cannot happen or changes nothing |
| SceneState.EmptyListStaysIdle | Assets/Scripts/SceneController.cs:139-143 | with no file passing the filter, `Start` leaves the "not found" message up with no player, and nothing happens afterwards |
| SceneState.TextFileKeptButUnclassified | Assets/Scripts/SceneController.cs:92-110 | with the default settings "notes.txt" is kept by the filter but is neither an image nor a video |
| SceneState.TextFileOnlyStaysLoading | Assets/Scripts/SceneController.cs:118-159 | a listing of only "notes.txt" leaves "Loading ..." on screen in an idle state, which `IdleStaysIdle` makes permanent |
| Scene.SceneController.constructor | Assets/Scripts/SceneController.cs:13-19 | the fields start as the initial state, which satisfies the invariant |
| Scene.SceneController.Start | Assets/Scripts/SceneController.cs:118-159 | the fields end as the `Start` step describes; the invariant `Valid` is kept |
| Scene.SceneController.ChangePanorama | Assets/Scripts/SceneController.cs:81-113 | the fields end as the `ChangePanorama` step describes, up to its first `yield return` |
| Scene.SceneController.MoveIndex | Assets/Scripts/SceneController.cs:84-87 | only the index changes, to `NextIndex` of its old value |
| Scene.SceneController.StartFade | Assets/Scripts/PanoramaViewer.cs:60-71 | only the exposure log changes: it gets the ramp of the fade's kind appended |
| Scene.SceneController.SwitchToCurrent | Assets/Scripts/SceneController.cs:92-112 | the fields end as the switch step describes |
| Scene.SceneController.ResumeAfterFadeOut | Assets/Scripts/SceneController.cs:90-112 | the suspended `ChangePanorama` continues with the switch; the invariant `Valid` is kept |
| Scene.SceneController.ResumeAfterFadeIn | Assets/Scripts/SceneController.cs:105-112 | the fields end as `ImageShown` describes; the invariant `Valid` is kept |
| Scene.SceneController.ImageFadeOut | Assets/Scripts/SceneController.cs:53-55 | only `pending` changes: the coroutine waits for the image delay |
| Scene.SceneController.ImageDelayOver | Assets/Scripts/SceneController.cs:55-56 | the fields end as `ImageDelayElapsed` describes; the invariant `Valid` is kept |
| Scene.SceneController.ImageFadeOutOver | Assets/Scripts/SceneController.cs:56-57 | the fields end as `ImageFadeOutDone` describes; the invariant `Valid` is kept |
| Scene.SceneController.VideoFadeOut | Assets/Scripts/SceneController.cs:47-49 | only `pending` changes: the coroutine waits for its delay |
| Scene.SceneController.VideoDelayOver | Assets/Scripts/SceneController.cs:49-50 | the fields end as `VideoDelayElapsed` describes; the invariant `Valid` is kept |
| Scene.SceneController.UnlockTransition | Assets/Scripts/SceneController.cs:60-63 | only the exposure log (a fade-in) and `pending` (the wait) change |
| Scene.SceneController.UnlockDelayOver | Assets/Scripts/SceneController.cs:63-64 | the fields end as `UnlockDelayElapsed` describes; the invariant `Valid` is kept |
| Scene.SceneController.OnVideoPrepared | Assets/Scripts/SceneController.cs:67-79 | the fields end as `VideoPrepared` describes, and the invariant is kept |
| Scene.SceneController.PlayOn | Assets/Scripts/SceneController.cs:74-78 | the fields end as `PlayingOn` describes |
| Scene.SceneController.OnVideoEnd | Assets/Scripts/SceneController.cs:115 | under autoplay `ChangePanorama("next")` starts; otherwise nothing changes; the invariant `Valid` is kept |
| Scene.SceneController.Update | Assets/Scripts/SceneController.cs:161-165 | quitting is requested iff Escape was pressed; the arrow and page keys act only with the lock free and autoplay off; the invariant `Valid` is kept |
| Scene.SceneController.ControlKeys | Assets/Scripts/SceneController.cs:35-45 | no direction key leaves the fields unchanged; otherwise `ChangePanorama` runs with the direction `KeyDirection` picks |

## Left out

- The waits (`WaitForSeconds`) and real time are not modelled. A suspended coroutine may be resumed by any later event, so orderings the engine's clock would rule out are also allowed.
- A fade runs to completion when it starts: its 101 writes enter the exposure log together. Two fades therefore never interleave their writes.
- `StartCoroutine` cancellation and coroutine ordering within one frame are not modelled. Nothing in the source cancels a coroutine.
- `ImageToRenderTexture` and `LoadTextureFromFile` are not part of this model. The texture made from an image file is the parameter `images`, and a missing file, which makes the source fail, is not represented.
- The directory listing, the directory creation and the media path (`Application.platform`, `Path.Combine`) are parameters of `Start`: the listing as a list of path strings and `mediaDir` as a string.
- The settings file (`JsonSettingsManager`) is not part of this model. The loaded settings are a parameter of `Start`.
- `Shader.Find("Skybox/Panoramic")` is not part of this model. The new material's initial parameters are a parameter of `Start`.
- The `GameObject` wrapper, the event subscriptions, `playOnAwake`, `isLooping` and the audio volume are not modelled. The player is looping, so reaching the loop point does not stop playback.
- `Resources.UnloadUnusedAssets` is not modelled.
- `Application.Quit` is not performed. `Update` returns it as the flag `quit`, and the model's state carries on.
- `MessageWindow` and `OnGUI` are not part of this model. `appMessage` is kept, but its drawing is not.
- `FreeCamera.cs` is not part of this model.
- `Scene.SceneController.SwitchToCurrent`: setting the player's `url` while a video plays is modelled as leaving `playing` as it was. What Unity's player does then is not part of this model.
- `PanoramicSkyboxControl.FindGCD`: does not model negative arguments, where C#'s truncating `%` differs from Dafny's. The source only passes texture sizes.
- `PanoramicSkyboxControl.CalculateAspectRatio`: returns `None` for a 0 by 0 size instead of raising a division by zero. Textures are never empty, so `UpdateSkyboxMainTexture` never meets this case.
- `Strings.ToLower`: lower-cases only the ASCII letters A to Z. Culture-specific case mapping is not modelled.
- `Strings.GetExtension`: treats '/' and '\\' as the directory separators. Other platform rules of `Path.GetExtension`, such as volume separators, are not modelled.
- `SceneState.VideoPrepared`: the video length is a `real`, and the `(float)` cast with its rounding is not modelled. The texture depth of 32 is not kept.
- Exposure values are logged as numerators over 100, and `PanoramicSkyboxControl.Exposure` models the value written as the real numerator/100. The `float` rounding of `i / Steps` is not modelled.
