/** The reader's typography settings: the clamped steps of the settings panel, `saveSettings`,
    `loadSettings`, `toggleImages` and the image sizing rule `handleImageSize`. */
module ReaderSettings {
  import opened Wrappers

  /** A colour scheme: CSS colour per role (`background`, `text`, `link`, ...). */
  type Colors = map<string, string>

  /** `this.settings`. JavaScript numbers are modelled as reals. */
  datatype Settings = Settings(
    fontSize: real, lineHeight: real, paragraphSpacing: real, width: real,
    isDarkMode: bool, showImages: bool, darkModeColors: Colors, lightModeColors: Colors)

  /** The object stored under `readerModeSettings`; a field a former version did not store is
      absent. */
  datatype Stored = Stored(
    fontSize: Option<real>, lineHeight: Option<real>, paragraphSpacing: Option<real>,
    width: Option<real>, isDarkMode: Option<bool>, showImages: Option<bool>,
    darkModeColors: Option<Colors>, lightModeColors: Option<Colors>)

  const DefaultDarkColors: Colors := map[
    "background" := "#222", "text" := "#E4E4E4", "border" := "#444",
    "link" := "#7CB4F5", "heading" := "#FFFFFF", "quote" := "#B4B4B4"]

  const DefaultLightColors: Colors := map[
    "background" := "#FAF9F7", "text" := "#2c3e50", "link" := "#2980b9",
    "border" := "#e0e0e0", "heading" := "#1a1a1a", "quote" := "#666666"]

  /** `defaultSettings`. */
  const Defaults: Settings :=
    Settings(18.0, 1.75, 1.6, 800.0, false, true, DefaultDarkColors, DefaultLightColors)

  function Max(a: real, b: real): real { if a >= b then a else b }
  function Min(a: real, b: real): real { if a <= b then a else b }

  /** A decrease button: `Math.max(lo, v - step)`. */
  function StepDown(v: real, lo: real, step: real): (r: real)
    requires step > 0.0
    ensures r >= lo
    ensures v - step >= lo ==> r == v - step
    ensures v > lo ==> r < v
  {
    Max(lo, v - step)
  }

  /** An increase button: `Math.min(hi, v + step)`. */
  function StepUp(v: real, hi: real, step: real): (r: real)
    requires step > 0.0
    ensures r <= hi
    ensures v + step <= hi ==> r == v + step
    ensures v < hi ==> r > v
  {
    Min(hi, v + step)
  }

  /** A step keeps a value that starts within the bounds within them. */
  lemma StepsStayInRange(v: real, lo: real, hi: real, step: real)
    requires step > 0.0 && lo <= v <= hi
    ensures lo <= StepDown(v, lo, step) <= hi
    ensures lo <= StepUp(v, hi, step) <= hi
  {
  }

  /** Away from the upper bound a decrease undoes an increase. */
  lemma StepDownUndoesStepUp(v: real, lo: real, hi: real, step: real)
    requires step > 0.0 && lo <= v && v + step <= hi
    ensures StepDown(StepUp(v, hi, step), lo, step) == v
  {
  }

  /** The eight buttons of the settings panel. */
  datatype Action =
    | DecreaseFont | IncreaseFont
    | DecreaseLineHeight | IncreaseLineHeight
    | DecreaseSpacing | IncreaseSpacing
    | DecreaseWidth | IncreaseWidth

  /** The bounds: font size 14 to 24 by 2, line height 1.5 to 2.25 by 0.25, paragraph spacing 1.2
      to 2.4 by 0.2, width 640 to 1200 by 80. */
  predicate InRange(s: Settings) {
    14.0 <= s.fontSize <= 24.0 && 1.5 <= s.lineHeight <= 2.25
    && 1.2 <= s.paragraphSpacing <= 2.4 && 640.0 <= s.width <= 1200.0
  }

  /** What one button does to the settings. */
  function ApplyAction(s: Settings, a: Action): (r: Settings)
    ensures InRange(s) ==> InRange(r)
    ensures r.isDarkMode == s.isDarkMode && r.showImages == s.showImages
    ensures r.darkModeColors == s.darkModeColors && r.lightModeColors == s.lightModeColors
  {
    match a
    case DecreaseFont => s.(fontSize := StepDown(s.fontSize, 14.0, 2.0))
    case IncreaseFont => s.(fontSize := StepUp(s.fontSize, 24.0, 2.0))
    case DecreaseLineHeight => s.(lineHeight := StepDown(s.lineHeight, 1.5, 0.25))
    case IncreaseLineHeight => s.(lineHeight := StepUp(s.lineHeight, 2.25, 0.25))
    case DecreaseSpacing => s.(paragraphSpacing := StepDown(s.paragraphSpacing, 1.2, 0.2))
    case IncreaseSpacing => s.(paragraphSpacing := StepUp(s.paragraphSpacing, 2.4, 0.2))
    case DecreaseWidth => s.(width := StepDown(s.width, 640.0, 80.0))
    case IncreaseWidth => s.(width := StepUp(s.width, 1200.0, 80.0))
  }

  /** The object `saveSettings` writes: every setting except `showImages`. */
  function SaveSettings(s: Settings): (r: Stored)
    ensures r.showImages.None?
    ensures r.fontSize.Some? && r.lineHeight.Some? && r.paragraphSpacing.Some? && r.width.Some?
    ensures r.isDarkMode.Some? && r.darkModeColors.Some? && r.lightModeColors.Some?
  {
    Stored(Some(s.fontSize), Some(s.lineHeight), Some(s.paragraphSpacing), Some(s.width),
           Some(s.isDarkMode), None, Some(s.darkModeColors), Some(s.lightModeColors))
  }

  function Pick<T>(o: Option<T>, d: T): T {
    if o.Some? then o.value else d
  }

  /** `loadSettings`: the defaults overridden by every stored field except `showImages`, with each
      colour scheme merged key by key over the default one; the plain defaults when nothing is
      stored. */
  function LoadSettings(stored: Option<Stored>): (s: Settings)
    ensures s.showImages == Defaults.showImages
    ensures DefaultDarkColors.Keys <= s.darkModeColors.Keys
    ensures DefaultLightColors.Keys <= s.lightModeColors.Keys
    ensures stored.None? ==> s == Defaults
  {
    if stored.None? then Defaults
    else
      var st := stored.value;
      Settings(
        Pick(st.fontSize, Defaults.fontSize), Pick(st.lineHeight, Defaults.lineHeight),
        Pick(st.paragraphSpacing, Defaults.paragraphSpacing), Pick(st.width, Defaults.width),
        Pick(st.isDarkMode, Defaults.isDarkMode), Defaults.showImages,
        DefaultDarkColors + Pick(st.darkModeColors, map[]),
        DefaultLightColors + Pick(st.lightModeColors, map[]))
  }

  /** Saving and loading again gives back every setting but `showImages`, which reverts to showing
      images, as long as each colour scheme still names every default role. */
  lemma LoadAfterSave(s: Settings)
    requires DefaultDarkColors.Keys <= s.darkModeColors.Keys
    requires DefaultLightColors.Keys <= s.lightModeColors.Keys
    ensures LoadSettings(Some(SaveSettings(s))) == s.(showImages := true)
  {
    assert DefaultDarkColors + s.darkModeColors == s.darkModeColors;
    assert DefaultLightColors + s.lightModeColors == s.lightModeColors;
  }

  /** Settings within bounds are loaded back within bounds. */
  lemma LoadAfterSaveInRange(s: Settings)
    requires InRange(s)
    ensures InRange(LoadSettings(Some(SaveSettings(s))))
  {
  }

  /** The settings of a reader and the `chrome.storage.sync` entry they are saved to. */
  class SettingsStore {
    var settings: Settings
    var storage: Option<Stored>

    /** `this.settings = { ...this.defaultSettings }`, with whatever the storage already holds. */
    constructor(storage: Option<Stored>)
      ensures settings == Defaults && this.storage == storage
    {
      settings := Defaults;
      this.storage := storage;
    }

    /** `loadSettings`. */
    method Load()
      modifies this
      ensures settings == LoadSettings(storage) && storage == old(storage)
      ensures settings.showImages
    {
      settings := LoadSettings(storage);
    }

    /** `saveSettings`. */
    method Save()
      modifies this
      ensures storage == Some(SaveSettings(settings)) && settings == old(settings)
    {
      storage := Some(SaveSettings(settings));
    }

    /** A settings-panel button: the clamped step, then `updateStyles`, which saves. */
    method Apply(a: Action)
      modifies this
      ensures settings == ApplyAction(old(settings), a)
      ensures storage == Some(SaveSettings(settings))
      ensures InRange(old(settings)) ==> InRange(settings)
    {
      settings := ApplyAction(settings, a);
      Save();
    }

    /** `toggleImages`: flips `showImages` and saves, though the saved object leaves it out. */
    method ToggleImages()
      modifies this
      ensures settings == old(settings).(showImages := !old(settings).showImages)
      ensures storage == Some(SaveSettings(settings))
    {
      settings := settings.(showImages := !settings.showImages);
      Save();
    }
  }

  /** An image of the reader: the classes and inline sizes `handleImageSize` sets. */
  class ReaderImage {
    const naturalWidth: int
    var classes: set<string>
    var styleWidth: string
    var styleMaxWidth: string

    constructor(naturalWidth: int)
      ensures this.naturalWidth == naturalWidth && classes == {}
      ensures styleWidth == "" && styleMaxWidth == ""
    {
      this.naturalWidth := naturalWidth;
      classes := {};
      styleWidth := "";
      styleMaxWidth := "";
    }

    /** `handleImageSize`: an image narrower than the content keeps its size, up to the full
        width; any other image fills the width. Classes only accumulate. */
    method HandleImageSize(contentWidth: real)
      modifies this
      ensures naturalWidth as real < contentWidth ==>
        classes == old(classes) + {"small-image"} && styleWidth == "auto" && styleMaxWidth == "100%"
      ensures naturalWidth as real >= contentWidth ==>
        classes == old(classes) + {"large-image"} && styleWidth == "100%"
        && styleMaxWidth == old(styleMaxWidth)
    {
      if (naturalWidth as real) < contentWidth {
        classes := classes + {"small-image"};
        styleWidth := "auto";
        styleMaxWidth := "100%";
      } else {
        classes := classes + {"large-image"};
        styleWidth := "100%";
      }
    }
  }
}
