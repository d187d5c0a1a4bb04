/** The editor screen: one state record updated by the event handlers,
    the view chosen from it, the crop aspect ratios, the size of the
    cropped output and the name of the exported file. */
module App {
  import opened Options
  import opened Strings
  import opened Types
  import Mockup

  const UploadFirstMessage: string := "Please upload and adjust your photo first."
  const ProcessFailedMessage: string := "Failed to process image."
  const ExportFailedMessage: string := "Export failed. Try again."

  /** Settings keys in the browser's local storage. */
  const CaptionKey: string := "pmw_caption"
  const HashtagsKey: string := "pmw_hashtags"

  /** The built-in caption and hashtags. */
  const FixedCaption: string :=
    "\U{2728} Transform your memories into a beautiful Mosaic Wall \U{1F48E}\nPerfect for home & office decor \U{1F3E1}\nDM to Order \U{2705}"
  const FixedHashtags: string :=
    "#PhysicalMosaicWall #MosaicWall #HomeDecor #WallArt #InteriorDesign #Memories #CustomArt"

  /** Output width of the cropped bitmap, in pixels. */
  const TargetWidth: real := 1024.0

  /** A string-or-null value used as a condition: only a present,
      non-empty string is truthy. */
  predicate Truthy(s: Option<string>) {
    s.Some? && s.value != ""
  }

  /** The cropper's pan offset. */
  datatype Point = Point(x: real, y: real)

  /** The crop region in source-image pixels, as the cropper reports it. */
  datatype PixelRegion = PixelRegion(x: real, y: real, width: real, height: real)

  datatype Size = Size(width: real, height: real)

  /** The width-to-height ratio the cropper is locked to. */
  function AspectNumeric(r: SourceAspectRatio): (a: real)
    ensures 0.8 <= a <= 1.91
  {
    match r
    case Square => 1.0
    case Landscape => 1.91
    case Portrait => 0.8
  }

  /** The mockup's CSS image ratio and the crop ratio are the same
      rational number for every aspect ratio. */
  lemma DisplayRatioMatchesCrop(r: SourceAspectRatio)
    ensures Mockup.RatioValue(Mockup.DisplayRatio(r)) == Some(AspectNumeric(r))
  {
    match r
    case Square => SquareRatio();
    case Landscape => LandscapeRatio();
    case Portrait => PortraitRatio();
  }

  lemma SquareRatio()
    ensures Mockup.RatioValue("1 / 1") == Some(1.0)
  {
    assert DigitsValue("1") == 1 by { assert "1"[..0] == ""; }
    Mockup.ParseWhole("1");
    Mockup.RatioOfNumbers("1", "1", 1.0, 1.0);
    assert "1" + " / " + "1" == "1 / 1";
  }

  lemma LandscapeRatio()
    ensures Mockup.RatioValue("1.91 / 1") == Some(1.91)
  {
    LandscapeRatioOf("1.91", "1");
    assert "1.91" + " / " + "1" == "1.91 / 1";
  }

  /** Stated over parameters so the solver does not unfold the parser on a
      literal string. */
  lemma LandscapeRatioOf(a: string, b: string)
    requires a == "1.91" && b == "1"
    ensures Mockup.RatioValue(a + " / " + b) == Some(1.91)
  {
    assert DigitsValue(b) == 1 by { assert b[..0] == ""; }
    Mockup.ParseWhole(b);
    ReadOnePointNinetyOne();
    Mockup.RatioOfNumbers(a, b, 1.91, 1.0);
  }

  lemma ReadOnePointNinetyOne()
    ensures Mockup.ParseNumber("1.91") == Some(1.91)
  {
    var one, ninetyOne := "1", "91";
    assert DigitsValue(one) == 1 by { assert one[..0] == ""; }
    assert DigitsValue(ninetyOne) == 91 by { assert ninetyOne[..1] == "9" && "9"[..0] == ""; }
    assert Mockup.Pow10(2) == 100;
    Mockup.ParseFraction(one, ninetyOne);
    assert one + "." + ninetyOne == "1.91";
  }

  lemma PortraitRatio()
    ensures Mockup.RatioValue("4 / 5") == Some(0.8)
  {
    PortraitRatioOf("4", "5");
    assert "4" + " / " + "5" == "4 / 5";
  }

  /** Stated over parameters for the same reason as `LandscapeRatioOf`. */
  lemma PortraitRatioOf(a: string, b: string)
    requires a == "4" && b == "5"
    ensures Mockup.RatioValue(a + " / " + b) == Some(0.8)
  {
    assert DigitsValue(a) == 4 by { assert a[..0] == ""; }
    assert DigitsValue(b) == 5 by { assert b[..0] == ""; }
    Mockup.ParseWhole(a);
    Mockup.ParseWhole(b);
    Mockup.RatioOfNumbers(a, b, 4.0, 5.0);
  }

  /** The size of the cropped output: 1024 pixels wide and as tall as
      keeps the crop's proportions. */
  function TargetSize(crop: PixelRegion): (s: Size)
    requires crop.width > 0.0
    ensures s.width == TargetWidth
    ensures s.height * crop.width == crop.height * s.width
    ensures crop.height >= 0.0 ==> s.height >= 0.0
  {
    Size(TargetWidth, (crop.height / crop.width) * TargetWidth)
  }

  /** A crop taken at the cropper's aspect ratio yields an output at that
      same aspect ratio. */
  lemma TargetKeepsAspect(crop: PixelRegion, r: SourceAspectRatio)
    requires crop.height > 0.0
    requires crop.width == AspectNumeric(r) * crop.height
    ensures TargetSize(crop).width == AspectNumeric(r) * TargetSize(crop).height
  {
    var a, h := AspectNumeric(r), crop.height;
    assert crop.width > 0.0;
    var k := TargetSize(crop).height;
    assert k * crop.width == h * 1024.0;
    CancelHeight(k, crop.width, a, h);
  }

  /** From `k * w == h * 1024` and `w == a * h` with `h` positive,
      `k * a == 1024`. */
  lemma CancelHeight(k: real, w: real, a: real, h: real)
    requires h > 0.0
    requires k * w == h * 1024.0
    requires w == a * h
    ensures k * a == 1024.0
  {
    var m := k * a;
    calc {
      m * h;
      k * (a * h);
      k * w;
      h * 1024.0;
    }
    assert (m - 1024.0) * h == 0.0;
  }

  /** `Mockup-<platform>-<milliseconds>.png`. */
  function DownloadName(p: Platform, now: nat): (name: string)
    ensures |name| > 11 && name[..7] == "Mockup-" && name[|name| - 4..] == ".png"
  {
    "Mockup-" + PlatformName(p) + "-" + NatToString(now) + ".png"
  }

  /** After the fixed prefix, the name splits at dashes into the platform
      and the timestamp with its extension. */
  lemma DownloadNameFields(p: Platform, now: nat)
    ensures Split(DownloadName(p, now)[7..], '-') == [PlatformName(p), NatToString(now) + ".png"]
  {
    var tail := NatToString(now) + ".png";
    assert DownloadName(p, now)[7..] == PlatformName(p) + ['-'] + tail;
    PlatformNameHasNoDash(p);
    assert '-' !in tail by {
      assert forall i :: 0 <= i < |NatToString(now)| ==> IsDigit(NatToString(now)[i]);
    }
    SplitAtFirst(PlatformName(p), '-', tail);
    SplitWithoutSeparator(tail, '-');
  }

  /** Exports of different platforms, or at different instants, never get
      the same file name. */
  lemma DownloadNameInjective(p: Platform, m: nat, q: Platform, n: nat)
    requires DownloadName(p, m) == DownloadName(q, n)
    ensures p == q && m == n
  {
    DownloadNameFields(p, m);
    DownloadNameFields(q, n);
    PlatformNamesDistinct(p, q);
    var a, b := NatToString(m), NatToString(n);
    assert a + ".png" == b + ".png";
    assert (a + ".png")[..|a|] == a && (b + ".png")[..|b|] == b;
  }

  /** `localStorage.getItem(key) || fallback`: a stored empty string
      counts as missing. */
  function LoadSetting(stored: Option<string>, fallback: string): (v: string)
    ensures stored.Some? && stored.value != "" ==> v == stored.value
    ensures stored.None? || stored.value == "" ==> v == fallback
  {
    if Truthy(stored) then stored.value else fallback
  }

  function Lookup(storage: map<string, string>, key: string): Option<string> {
    if key in storage then Some(storage[key]) else None
  }

  /** The editor's state and its event handlers. */
  class Editor {
    var inputs: PostInputs
    var caption: string
    var hashtags: string
    var isGenerating: bool
    var finalImage: Option<string>
    var error: Option<string>
    var crop: Point
    var zoom: real
    var croppedAreaPixels: Option<PixelRegion>
    /** The browser's local storage. */
    var storage: map<string, string>

    /** The stored settings always equal the ones on screen: every change
        to either is written back at once. */
    ghost predicate Valid()
      reads this
    {
      && Lookup(storage, CaptionKey) == Some(caption)
      && Lookup(storage, HashtagsKey) == Some(hashtags)
    }

    /** The first render: default inputs, settings read from storage with
        the built-in fallbacks, and both written back. */
    constructor (stored: map<string, string>)
      ensures Valid()
      ensures inputs == PostInputs(Instagram, "", None, Square)
      ensures caption == LoadSetting(Lookup(stored, CaptionKey), FixedCaption)
      ensures hashtags == LoadSetting(Lookup(stored, HashtagsKey), FixedHashtags)
      ensures storage == stored[CaptionKey := caption][HashtagsKey := hashtags]
      ensures !isGenerating && finalImage == None && error == None
      ensures crop == Point(0.0, 0.0) && zoom == 1.0 && croppedAreaPixels == None
    {
      inputs := PostInputs(Instagram, "", None, Square);
      caption := LoadSetting(Lookup(stored, CaptionKey), FixedCaption);
      hashtags := LoadSetting(Lookup(stored, HashtagsKey), FixedHashtags);
      isGenerating := false;
      finalImage := None;
      error := None;
      crop := Point(0.0, 0.0);
      zoom := 1.0;
      croppedAreaPixels := None;
      new;
      storage := stored[CaptionKey := caption];
      storage := storage[HashtagsKey := hashtags];
    }

    predicate ShowsWelcome()
      reads this
    {
      !Truthy(finalImage) && !isGenerating && !Truthy(inputs.photo)
    }

    predicate ShowsCropper()
      reads this
    {
      Truthy(inputs.photo) && !Truthy(finalImage) && !isGenerating
    }

    predicate ShowsMockup()
      reads this
    {
      Truthy(finalImage)
    }

    predicate ShowsOverlay()
      reads this
    {
      isGenerating
    }

    predicate GenerateDisabled()
      reads this
    {
      isGenerating || !Truthy(inputs.photo)
    }

    /** The mockup on screen, if any. */
    function CurrentMockup(): (v: Option<Mockup.View>)
      reads this
      ensures v.Some? <==> ShowsMockup()
      ensures v.Some? ==> v.value.width == ConfigFor(inputs.platform).width
    {
      if ShowsMockup() then
        Some(Mockup.Render(inputs.platform, inputs.username, finalImage.value,
                           inputs.aspectRatio, caption, hashtags))
      else None
    }

    method SelectPlatform(p: Platform)
      requires Valid()
      modifies this`inputs
      ensures Valid()
      ensures inputs == old(inputs).(platform := p)
    {
      inputs := inputs.(platform := p);
    }

    method EditUsername(name: string)
      requires Valid()
      modifies this`inputs
      ensures Valid()
      ensures inputs == old(inputs).(username := name)
    {
      inputs := inputs.(username := name);
    }

    method SelectAspectRatio(r: SourceAspectRatio)
      requires Valid()
      modifies this`inputs, this`finalImage
      ensures Valid()
      ensures inputs == old(inputs).(aspectRatio := r)
      ensures finalImage == None
    {
      inputs := inputs.(aspectRatio := r);
      finalImage := None;
    }

    /** A file was picked (`fileChosen`) and read; `readResult` is the
        reader's result, `None` when reading failed. Picking nothing
        changes nothing. */
    method HandleFileChange(fileChosen: bool, readResult: Option<string>)
      requires Valid()
      modifies this`inputs, this`finalImage, this`zoom, this`crop
      ensures Valid()
      ensures !fileChosen ==> inputs == old(inputs) && finalImage == old(finalImage)
                              && zoom == old(zoom) && crop == old(crop)
      ensures fileChosen ==> inputs == old(inputs).(photo := readResult) && finalImage == None
                             && zoom == 1.0 && crop == Point(0.0, 0.0)
    {
      if fileChosen {
        inputs := inputs.(photo := readResult);
        finalImage := None;
        zoom := 1.0;
        crop := Point(0.0, 0.0);
      }
    }

    method CropComplete(region: PixelRegion)
      requires Valid()
      modifies this`croppedAreaPixels
      ensures Valid()
      ensures croppedAreaPixels == Some(region)
    {
      croppedAreaPixels := Some(region);
    }

    /** The part of the generate handler before the wait: validation, then
        the busy flag. */
    method StartGenerate() returns (started: bool)
      requires Valid()
      modifies this`error, this`isGenerating
      ensures Valid()
      ensures started == (Truthy(inputs.photo) && croppedAreaPixels.Some?)
      ensures !started ==> error == Some(UploadFirstMessage) && isGenerating == old(isGenerating)
      ensures started ==> isGenerating && error == None
    {
      if !Truthy(inputs.photo) || croppedAreaPixels.None? {
        error := Some(UploadFirstMessage);
        return false;
      }
      isGenerating := true;
      error := None;
      return true;
    }

    /** The part after the wait: `cropped` is the cropped image, `None`
        when it could not be produced. The busy flag is always cleared. */
    method FinishGenerate(cropped: Option<string>)
      requires Valid() && isGenerating
      modifies this`finalImage, this`error, this`isGenerating
      ensures Valid()
      ensures !isGenerating
      ensures cropped.Some? ==> finalImage == cropped && error == old(error)
      ensures cropped.None? ==> finalImage == old(finalImage) && error == Some(ProcessFailedMessage)
    {
      if cropped.Some? {
        finalImage := cropped;
      } else {
        error := Some(ProcessFailedMessage);
      }
      isGenerating := false;
    }

    /** The generate button's handler, start to end. Without a photo or a
        crop region only the error changes; otherwise the cropped image
        replaces the final image and clears the error, or a failure sets the
        error and keeps the old image, and either way the busy flag ends
        cleared. */
    method Generate(cropped: Option<string>)
      requires Valid()
      modifies this`finalImage, this`error, this`isGenerating
      ensures Valid()
      ensures !(Truthy(inputs.photo) && croppedAreaPixels.Some?) ==>
                error == Some(UploadFirstMessage) && finalImage == old(finalImage)
                && isGenerating == old(isGenerating)
      ensures Truthy(inputs.photo) && croppedAreaPixels.Some? ==>
                && !isGenerating
                && (cropped.Some? ==> finalImage == cropped && error == None)
                && (cropped.None? ==> finalImage == old(finalImage) && error == Some(ProcessFailedMessage))
      ensures Truthy(inputs.photo) && croppedAreaPixels.Some? && Truthy(cropped) ==>
                ShowsMockup() && !ShowsCropper()
    {
      var started := StartGenerate();
      if started {
        FinishGenerate(cropped);
      }
    }

    method BackToCrop()
      requires Valid()
      modifies this`finalImage
      ensures Valid()
      ensures finalImage == None
      ensures Truthy(inputs.photo) && !isGenerating ==> ShowsCropper()
    {
      finalImage := None;
    }

    /** The download button (shown with the mockup only). `exported` says
        whether rasterising the mockup succeeded; `now` is the clock in
        milliseconds. Returns the name of the downloaded file. */
    method Download(exported: bool, now: nat) returns (fileName: Option<string>)
      requires Valid()
      modifies this`error
      ensures Valid()
      ensures !ShowsMockup() ==> fileName == None && error == old(error)
      ensures ShowsMockup() && !exported ==> fileName == None && error == Some(ExportFailedMessage)
      ensures ShowsMockup() && exported ==>
                fileName == Some(DownloadName(inputs.platform, now)) && error == old(error)
    {
      if !ShowsMockup() {
        return None;
      }
      if !exported {
        error := Some(ExportFailedMessage);
        return None;
      }
      return Some(DownloadName(inputs.platform, now));
    }

    method EditCaption(text: string)
      requires Valid()
      modifies this`caption, this`storage
      ensures Valid()
      ensures caption == text && storage == old(storage)[CaptionKey := text]
    {
      caption := text;
      storage := storage[CaptionKey := text];
    }

    method EditHashtags(text: string)
      requires Valid()
      modifies this`hashtags, this`storage
      ensures Valid()
      ensures hashtags == text && storage == old(storage)[HashtagsKey := text]
    {
      hashtags := text;
      storage := storage[HashtagsKey := text];
    }

    method ResetDefaults()
      requires Valid()
      modifies this`caption, this`hashtags, this`storage
      ensures Valid()
      ensures caption == FixedCaption && hashtags == FixedHashtags
      ensures storage == old(storage)[CaptionKey := FixedCaption][HashtagsKey := FixedHashtags]
    {
      caption := FixedCaption;
      storage := storage[CaptionKey := caption];
      hashtags := FixedHashtags;
      storage := storage[HashtagsKey := hashtags];
    }
  }

  /** The cropper and the mockup are never on screen together, the welcome
      panel excludes every other panel, and some panel is always shown. The
      generate button is disabled under the welcome panel and the overlay,
      and enabled while the cropper is shown. */
  lemma ViewsConsistent(e: Editor)
    ensures !(e.ShowsCropper() && e.ShowsMockup())
    ensures e.ShowsWelcome() ==> !e.ShowsCropper() && !e.ShowsMockup() && !e.ShowsOverlay()
    ensures e.ShowsWelcome() || e.ShowsCropper() || e.ShowsMockup() || e.ShowsOverlay()
    ensures e.ShowsWelcome() || e.ShowsOverlay() ==> e.GenerateDisabled()
    ensures e.ShowsCropper() ==> !e.GenerateDisabled()
  {
  }

  /** Settings survive a reload: edit the caption, then start a new editor
      from the same storage. A non-empty caption comes back; an empty one
      comes back as the built-in caption. */
  method ReloadedCaption(stored: map<string, string>, text: string) returns (shown: string)
    ensures text != "" ==> shown == text
    ensures text == "" ==> shown == FixedCaption
  {
    var before := new Editor(stored);
    before.EditCaption(text);
    var after := new Editor(before.storage);
    shown := after.caption;
  }

  /** A walk through the editor: Instagram, a square 1000-pixel crop of a
      2000 by 1000 photo, generate, download. */
  method Scenario(photo: string, cropped: string, now: nat)
    requires photo != "" && cropped != ""
  {
    var e := new Editor(map[]);
    e.SelectPlatform(Instagram);
    e.HandleFileChange(true, Some(photo));
    assert e.ShowsCropper();
    e.SelectAspectRatio(Square);
    var region := PixelRegion(500.0, 0.0, 1000.0, 1000.0);
    e.CropComplete(region);
    assert TargetSize(region) == Size(1024.0, 1024.0);
    e.Generate(Some(cropped));
    assert e.ShowsMockup() && e.error == None;
    var v := e.CurrentMockup();
    assert v.Some? && v.value.width == 550;
    var name := e.Download(true, now);
    assert name == Some(DownloadName(Instagram, now));
  }
}
