/**
 * `SceneController`: the slideshow's MonoBehaviour, with its fields updated
 * in place. Every engine callback and every resumption of a suspended
 * coroutine is a method, and each method's effect on the fields is tied to
 * the step of the `SceneState` machine that describes it, where the
 * properties of the slideshow are proved.
 */
module Scene {
  import opened Wrappers
  import opened Strings
  import opened PanoramaViewer
  import opened FileOperations
  import opened PanoramicSkyboxControl
  import opened Navigation
  import opened SceneState

  class SceneController {
    var viewerSettings: ViewerSettings
    var mediaFiles: seq<string>
    var currentMediaIndex: int
    var appMessage: Option<string>
    var transitionLock: bool
    var firstRun: bool
    var videoPlayer: Option<Player>
    /** `RenderSettings.skybox` once `Start` has made it the panoramic material. */
    var skybox: Option<Material>
    /** Every exposure numerator written to the skybox, in order. */
    var exposureLog: seq<int>
    /** The coroutines waiting at a `yield return`. */
    var pending: multiset<Routine>
    /** `ImageToRenderTexture`: the texture made of an image file, opaque here. */
    const images: string -> Surface

    /** The fields as one `SceneState.State` value. */
    function Snapshot(): State
      reads this
    {
      State(viewerSettings, mediaFiles, currentMediaIndex, appMessage, transitionLock, firstRun,
            videoPlayer, skybox, exposureLog, pending)
    }

    /** The controller's invariant, `SceneState.Valid`, on the fields. */
    predicate Valid()
      reads this
    {
      SceneState.Valid(Snapshot())
    }

    /** The field initialisers. */
    constructor (images: string -> Surface)
      ensures Snapshot() == InitialState() && Valid()
      ensures this.images == images
    {
      viewerSettings := DefaultSettings();
      mediaFiles := [];
      currentMediaIndex := -1;
      appMessage := None;
      transitionLock := true;
      firstRun := true;
      videoPlayer := None;
      skybox := None;
      exposureLog := [];
      pending := multiset{};
      this.images := images;
    }

    /**
     * `Start`, with the loaded settings, the media directory's listing and
     * the material the panoramic shader gives as parameters.
     */
    method Start(settings: ViewerSettings, directoryFiles: seq<string>, mediaDir: string, material: Material)
      requires Snapshot() == InitialState()
      modifies this
      ensures Valid()
      ensures Snapshot() == Started(settings, directoryFiles, mediaDir, material, images)
    {
      exposureLog := exposureLog + [0];
      skybox := None;
      viewerSettings := settings;
      var fileFormats := viewerSettings.imageFormats + viewerSettings.videoFormats;
      mediaFiles := GetFilesFromDir(directoryFiles, Some(fileFormats));
      assert Snapshot() == BlackedOut(settings, directoryFiles);
      if |mediaFiles| == 0 {
        appMessage := Some(NotFoundMessage(mediaDir));
        return;
      }
      skybox := Some(material);
      videoPlayer := Some(Player("", false, false, None));
      appMessage := Some(LoadingMessage);
      assert Snapshot() == Loading(BlackedOut(settings, directoryFiles), material);
      ChangePanorama("next");
      StartedValid(settings, directoryFiles, mediaDir, material, images);
    }

    /** `ChangePanorama(direction)`, run up to its first `yield return` or its end. */
    method ChangePanorama(direction: string)
      requires Ready(Snapshot())
      modifies this
      ensures Snapshot() == ChangePanoramaStep(old(Snapshot()), direction, images)
    {
      transitionLock := true;
      MoveIndex(direction);
      if !viewerSettings.autoPlay && !firstRun {
        FadeKinds();
        StartFade("fadeOut");
        pending := pending + multiset{ChangeAfterFadeOut};
        return;
      }
      SwitchToCurrent();
    }

    /** The index update of `ChangePanorama`: one step, then the wrap-around at either end. */
    method MoveIndex(direction: string)
      modifies this
      ensures Snapshot() == old(Snapshot()).(currentMediaIndex := NextIndex(old(currentMediaIndex), direction, |mediaFiles|))
    {
      currentMediaIndex := if IsNext(direction) then currentMediaIndex + 1 else currentMediaIndex - 1;
      if currentMediaIndex > |mediaFiles| - 1 {
        currentMediaIndex := 0;
      }
      if currentMediaIndex < 0 {
        currentMediaIndex := |mediaFiles| - 1;
      }
    }

    /** `SkyboxFadeTransition(kind)` run to its end: its exposure writes are logged. */
    method StartFade(kind: string)
      modifies this
      ensures Snapshot() == old(Snapshot()).(exposure := old(exposureLog) + FadeRamp(IsFadeIn(kind)))
    {
      var writes := SkyboxFadeTransition(kind);
      exposureLog := exposureLog + writes;
    }

    /** The `switch` of `ChangePanorama` on the current file's extension, up to the image fade-in or the end. */
    method SwitchToCurrent()
      requires Ready(Snapshot()) && 0 <= currentMediaIndex < |mediaFiles|
      modifies this
      ensures Snapshot() == SwitchMedia(old(Snapshot()), images)
    {
      var file := mediaFiles[currentMediaIndex];
      var fileFormat := GetExtension(file);
      match Classify(fileFormat, viewerSettings) {
        case Video =>
          videoPlayer := Some(videoPlayer.value.(url := file, preparing := true));
        case Image =>
          videoPlayer := Some(videoPlayer.value.(playing := false));
          skybox := Some(UpdateSkyboxMainTexture(skybox.value, images(file)));
          appMessage := None;
          FadeKinds();
          StartFade("fadeIn");
          pending := pending + multiset{ChangeAfterFadeIn};
          return;
        case Unclassified =>
      }
      firstRun := false;
    }

    /** `ChangePanorama` resumed after its pre-switch fade-out. */
    method ResumeAfterFadeOut()
      requires Valid() && Ready(Snapshot()) && 0 <= currentMediaIndex < |mediaFiles| && ChangeAfterFadeOut in pending
      modifies this
      ensures Valid()
      ensures Snapshot() == PreFadeDone(old(Snapshot()), images)
    {
      StepPreservesValid(Snapshot(), Resume(ChangeAfterFadeOut), images);
      pending := pending - multiset{ChangeAfterFadeOut};
      SwitchToCurrent();
    }

    /** `ChangePanorama` resumed after an image's fade-in: release the lock and, under autoplay, start `ImageFadeOut`. */
    method ResumeAfterFadeIn()
      requires Valid() && ChangeAfterFadeIn in pending
      modifies this
      ensures Valid()
      ensures Snapshot() == ImageShown(old(Snapshot()))
    {
      ghost var s0 := Snapshot();
      pending := pending - multiset{ChangeAfterFadeIn};
      transitionLock := false;
      if viewerSettings.autoPlay {
        ImageFadeOut();
      }
      firstRun := false;
      StepPreservesValid(s0, Resume(ChangeAfterFadeIn), images);
    }

    /** `ImageFadeOut()` up to its first wait. */
    method ImageFadeOut()
      modifies this
      ensures Snapshot() == old(Snapshot()).(pending := old(pending) + multiset{ImageFadeOutWait})
    {
      pending := pending + multiset{ImageFadeOutWait};
    }

    /** `ImageFadeOut` after the image delay: the fade-out it waits for. */
    method ImageDelayOver()
      requires Valid() && ImageFadeOutWait in pending
      modifies this
      ensures Valid()
      ensures Snapshot() == ImageDelayElapsed(old(Snapshot()))
    {
      StepPreservesValid(Snapshot(), Resume(ImageFadeOutWait), images);
      pending := pending - multiset{ImageFadeOutWait};
      FadeKinds();
      StartFade("fadeOut");
      pending := pending + multiset{ImageFadeOutAdvance};
    }

    /** `ImageFadeOut` after its fade-out: the next media file. */
    method ImageFadeOutOver()
      requires Valid() && Ready(Snapshot()) && ImageFadeOutAdvance in pending
      modifies this
      ensures Valid()
      ensures Snapshot() == ImageFadeOutDone(old(Snapshot()), images)
    {
      ghost var s0 := Snapshot();
      pending := pending - multiset{ImageFadeOutAdvance};
      ChangePanorama("next");
      StepPreservesValid(s0, Resume(ImageFadeOutAdvance), images);
    }

    /** `VideoFadeOut` after its delay: the fade-out it starts. */
    method VideoDelayOver(delay: real)
      requires Valid() && VideoFadeOutWait(delay) in pending
      modifies this
      ensures Valid()
      ensures Snapshot() == VideoDelayElapsed(old(Snapshot()), delay)
    {
      StepPreservesValid(Snapshot(), Resume(VideoFadeOutWait(delay)), images);
      pending := pending - multiset{VideoFadeOutWait(delay)};
      FadeKinds();
      StartFade("fadeOut");
    }

    /** `UnlockTransition` after the fade duration. */
    method UnlockDelayOver()
      requires Valid() && UnlockWait in pending
      modifies this
      ensures Valid()
      ensures Snapshot() == UnlockDelayElapsed(old(Snapshot()))
    {
      StepPreservesValid(Snapshot(), Resume(UnlockWait), images);
      pending := pending - multiset{UnlockWait};
      transitionLock := false;
    }

    /** `OnVideoPrepared`, with the prepared video's size and length. */
    method OnVideoPrepared(width: Dim, height: Dim, length: real)
      requires Valid() && videoPlayer.Some? && videoPlayer.value.preparing
      modifies this
      ensures Valid()
      ensures Snapshot() == VideoPrepared(old(Snapshot()), width, height, length)
    {
      ghost var s0 := Snapshot();
      var newRenderTexture := VideoTexture(videoPlayer.value.url, width, height);
      var timeBeforeEnd := length - viewerSettings.fadeDuration - 1.0;
      if viewerSettings.autoPlay {
        VideoFadeOut(timeBeforeEnd);
      }
      PlayOn(newRenderTexture);
      VideoPreparedValid(s0, width, height, length);
    }

    /** The rest of `OnVideoPrepared`: show the new texture, start `UnlockTransition` and play. */
    method PlayOn(newRenderTexture: Surface)
      requires Ready(Snapshot())
      modifies this
      ensures Snapshot() == PlayingOn(old(Snapshot()), newRenderTexture)
    {
      videoPlayer := Some(videoPlayer.value.(preparing := false, targetTexture := Some(newRenderTexture)));
      appMessage := None;
      skybox := Some(UpdateSkyboxMainTexture(skybox.value, newRenderTexture));
      UnlockTransition();
      videoPlayer := Some(videoPlayer.value.(playing := true));
    }

    /** `VideoFadeOut(delay)` up to its wait. */
    method VideoFadeOut(delay: real)
      modifies this
      ensures Snapshot() == old(Snapshot()).(pending := old(pending) + multiset{VideoFadeOutWait(delay)})
    {
      pending := pending + multiset{VideoFadeOutWait(delay)};
    }

    /** `UnlockTransition` up to its wait: the fade-in it starts. */
    method UnlockTransition()
      modifies this
      ensures Snapshot() == old(Snapshot()).(exposure := old(exposureLog) + FadeRamp(true),
                                             pending := old(pending) + multiset{UnlockWait})
    {
      FadeKinds();
      StartFade("fadeIn");
      pending := pending + multiset{UnlockWait};
    }

    /** `OnVideoEnd`: the loop point of the playing video. */
    method OnVideoEnd()
      requires Valid() && videoPlayer.Some? && videoPlayer.value.playing
      modifies this
      ensures Valid()
      ensures Snapshot() == VideoEnded(old(Snapshot()), images)
    {
      StepPreservesValid(Snapshot(), LoopPointReached, images);
      if viewerSettings.autoPlay {
        ChangePanorama("next");
      }
    }

    /** `Update`, with the keys pressed this frame; `quit` is the `Application.Quit` request. */
    method Update(keys: set<Key>) returns (quit: bool)
      requires Valid()
      modifies this
      ensures quit <==> Escape in keys
      ensures Valid()
      ensures Snapshot() == KeysDown(old(Snapshot()), keys, images)
    {
      StepPreservesValid(Snapshot(), Frame(keys), images);
      quit := Escape in keys;
      if !transitionLock && !viewerSettings.autoPlay {
        ControlKeys(keys);
      }
    }

    /** `ControlKeys`: "prev" for left arrow or page down, else "next" for right arrow or page up. */
    method ControlKeys(keys: set<Key>)
      requires Ready(Snapshot())
      modifies this
      ensures KeyDirection(keys).None? ==> Snapshot() == old(Snapshot())
      ensures KeyDirection(keys).Some? ==> Snapshot() == ChangePanoramaStep(old(Snapshot()), KeyDirection(keys).value, images)
    {
      if LeftArrow in keys || PageDown in keys {
        ChangePanorama("prev");
      } else if RightArrow in keys || PageUp in keys {
        ChangePanorama("next");
      }
    }
  }
}
