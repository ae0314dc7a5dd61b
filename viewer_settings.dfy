/** The slideshow's configuration record, read once at start-up. */
module PanoramaViewer {

  /**
   * `ViewerSettings`: autoplay on or off, how long an image stays up and how
   * long a fade lasts (seconds), and the extension lists that classify media.
   * The lists are kept as the ordered lists the source holds.
   */
  datatype ViewerSettings = ViewerSettings(
    autoPlay: bool,
    imageDelay: real,
    fadeDuration: real,
    imageFormats: seq<string>,
    videoFormats: seq<string>)

  /** The settings used when no settings file overrides them. */
  function DefaultSettings(): (s: ViewerSettings)
    ensures s.autoPlay
    ensures s.imageDelay == 15.0 && s.fadeDuration == 2.0
    ensures s.imageFormats == [".jpg", ".png"]
    ensures s.videoFormats == [".mp4", ".webm"]
  {
    ViewerSettings(true, 15.0, 2.0, [".jpg", ".png"], [".mp4", ".webm"])
  }
}
