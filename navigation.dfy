/**
 * The slideshow's navigation rules, free of any engine state: how the media
 * index moves, how a file is classified by its extension and which keys
 * ask for which direction.
 */
module Navigation {
  import opened Wrappers
  import opened Strings
  import opened PanoramaViewer
  import PanoramicSkyboxControl

  /** `direction.ToLower() == "next"`: every other direction string steps backwards. */
  predicate IsNext(direction: string) {
    ToLower(direction) == "next"
  }

  /**
   * The index update of `ChangePanorama`: one step forwards or backwards,
   * then an index past the end becomes 0 and a negative one becomes the
   * last index. With an empty list the result is 0 or -1, which no caller
   * uses.
   */
  function NextIndex(index: int, direction: string, count: nat): (r: int)
    ensures count > 0 ==> 0 <= r < count
    ensures count > 0 && IsNext(direction) && -1 <= index < count - 1 ==> r == index + 1
    ensures count > 0 && IsNext(direction) && index == count - 1 ==> r == 0
    ensures count > 0 && !IsNext(direction) && 0 < index <= count ==> r == index - 1
    ensures count > 0 && !IsNext(direction) && -1 <= index <= 0 ==> r == count - 1
  {
    var moved := if IsNext(direction) then index + 1 else index - 1;
    var wrapped := if moved > count - 1 then 0 else moved;
    if wrapped < 0 then count - 1 else wrapped
  }

  /** The direction words: case does not matter, and anything but "next" goes back. */
  lemma DirectionWords()
    ensures IsNext("next") && IsNext("Next") && IsNext("NEXT")
    ensures !IsNext("prev") && !IsNext("") && !IsNext("forward")
  {
    assert ToLower("next") == "next";
    assert ToLower("Next") == "next";
    assert ToLower("NEXT") == "next";
    assert ToLower("prev") == "prev";
    assert |ToLower("forward")| != |"next"|;
  }

  /** Any direction that is not "next" moves the index exactly as "prev" does. */
  lemma OtherDirectionsGoBack(index: int, direction: string, count: nat)
    requires !IsNext(direction)
    ensures NextIndex(index, direction, count) == NextIndex(index, "prev", count)
  {
    DirectionWords();
  }

  /** Going forwards and then backwards (or the other way round) returns to the same media file. */
  lemma PrevUndoesNext(index: int, count: nat)
    requires 0 <= index < count
    ensures NextIndex(NextIndex(index, "next", count), "prev", count) == index
    ensures NextIndex(NextIndex(index, "prev", count), "next", count) == index
  {
    DirectionWords();
  }

  /** The index after `steps` forward moves from `index`. */
  function AdvanceBy(index: int, count: nat, steps: nat): int
    decreases steps
  {
    if steps == 0 then index else AdvanceBy(NextIndex(index, "next", count), count, steps - 1)
  }

  lemma ModShift(x: nat, count: nat)
    requires count > 0
    ensures (x + count) % count == x % count
  {
    PanoramicSkyboxControl.MulAdd(count, x / count, 1);
    PanoramicSkyboxControl.DivModUnique(x + count, count, x / count + 1, x % count);
  }

  /** Forward moves count modulo the list length. */
  lemma {:induction false} AdvanceIsModular(index: nat, count: nat, steps: nat)
    requires index < count
    ensures AdvanceBy(index, count, steps) == (index + steps) % count
    decreases steps
  {
    DirectionWords();
    if steps == 0 {
      PanoramicSkyboxControl.DivModUnique(index, count, 0, index);
    } else if index < count - 1 {
      AdvanceIsModular(index + 1, count, steps - 1);
    } else {
      AdvanceIsModular(0, count, steps - 1);
      ModShift(steps - 1, count);
    }
  }

  /** After as many forward moves as there are files, the slideshow is back where it started. */
  lemma FullCycle(index: nat, count: nat)
    requires index < count
    ensures AdvanceBy(index, count, count) == index
    ensures forall k :: 0 < k < count ==> AdvanceBy(index, count, k) != index
  {
    AdvanceIsModular(index, count, count);
    ModShift(index, count);
    PanoramicSkyboxControl.DivModUnique(index, count, 0, index);
    forall k | 0 < k < count
      ensures AdvanceBy(index, count, k) != index
    {
      AdvanceIsModular(index, count, k);
      if index + k < count {
        PanoramicSkyboxControl.DivModUnique(index + k, count, 0, index + k);
      } else {
        PanoramicSkyboxControl.DivModUnique(index + k, count, 1, index + k - count);
      }
    }
  }

  /** What the `switch` on a file's extension picks. */
  datatype MediaKind = Video | Image | Unclassified

  /**
   * The `switch` in `ChangePanorama`: exact, case-sensitive membership in the
   * video formats is tested first, then in the image formats.
   */
  function Classify(format: string, settings: ViewerSettings): (k: MediaKind)
    ensures k == Video <==> format in settings.videoFormats
    ensures k == Image <==> format !in settings.videoFormats && format in settings.imageFormats
    ensures k == Unclassified <==> format !in settings.videoFormats && format !in settings.imageFormats
  {
    if format in settings.videoFormats then Video
    else if format in settings.imageFormats then Image
    else Unclassified
  }

  /** With the default settings: upper-case extensions and unlisted ones are neither image nor video. */
  lemma DefaultClassification()
    ensures Classify(".jpg", DefaultSettings()) == Image
    ensures Classify(".webm", DefaultSettings()) == Video
    ensures Classify(".JPG", DefaultSettings()) == Unclassified
    ensures Classify(".txt", DefaultSettings()) == Unclassified
  {
    var d := DefaultSettings();
    assert d.videoFormats[1] == ".webm" && d.imageFormats[0] == ".jpg";
    assert ".JPG" != ".jpg" && ".JPG" != ".png" && ".JPG" != ".mp4" && ".JPG" != ".webm";
  }

  /** The keys `Update` and `ControlKeys` read. */
  datatype Key = LeftArrow | PageDown | RightArrow | PageUp | Escape

  /**
   * `ControlKeys`: the direction requested by the keys pressed this frame.
   * Left arrow or page down ask for "prev" and take precedence over right
   * arrow or page up, which ask for "next".
   */
  function KeyDirection(keys: set<Key>): (d: Option<string>)
    ensures d == Some("prev") <==> LeftArrow in keys || PageDown in keys
    ensures d == Some("next") <==> LeftArrow !in keys && PageDown !in keys && (RightArrow in keys || PageUp in keys)
    ensures d.None? <==> LeftArrow !in keys && PageDown !in keys && RightArrow !in keys && PageUp !in keys
  {
    if LeftArrow in keys || PageDown in keys then Some("prev")
    else if RightArrow in keys || PageUp in keys then Some("next")
    else None
  }
}
