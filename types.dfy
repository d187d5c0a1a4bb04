/** The enumerations, the post inputs record and the per-platform width
    table shared by the editor and the mockup. */
module Types {
  import opened Options

  datatype Platform = Instagram | Facebook | LinkedIn | Twitter

  /** The string value of each platform; it is shown on the buttons and
      written into the download file name. */
  function PlatformName(p: Platform): string {
    match p
    case Instagram => "Instagram"
    case Facebook => "Facebook"
    case LinkedIn => "LinkedIn"
    case Twitter => "Twitter(X)"
  }

  datatype SourceAspectRatio = Square | Landscape | Portrait

  function AspectRatioName(r: SourceAspectRatio): string {
    match r
    case Square => "Square"
    case Landscape => "Landscape"
    case Portrait => "Portrait"
  }

  /** What the user has entered so far; `photo` is the data URL of the
      uploaded picture, `None` standing for `null`. */
  datatype PostInputs = PostInputs(
    platform: Platform,
    username: string,
    photo: Option<string>,
    aspectRatio: SourceAspectRatio)

  datatype PlatformConfig = PlatformConfig(width: nat)

  /** Mockup container width in CSS pixels, per platform. */
  const PlatformConfigs: map<Platform, PlatformConfig> :=
    map[Instagram := PlatformConfig(550),
        Facebook := PlatformConfig(580),
        LinkedIn := PlatformConfig(560),
        Twitter := PlatformConfig(580)]

  /** `Object.values(Platform)`: the platform buttons, in declaration order. */
  const AllPlatforms: seq<Platform> := [Instagram, Facebook, LinkedIn, Twitter]

  /** `Object.values(SourceAspectRatio)`: the aspect-ratio buttons. */
  const AllAspectRatios: seq<SourceAspectRatio> := [Square, Landscape, Portrait]

  /** `PLATFORM_CONFIGS[p]`: the table is total, so the lookup never misses,
      and every width is a positive number of pixels no wider than 580. */
  function ConfigFor(p: Platform): (c: PlatformConfig)
    ensures p in PlatformConfigs && c == PlatformConfigs[p]
    ensures 0 < c.width <= 580
  {
    assert p.Instagram? || p.Facebook? || p.LinkedIn? || p.Twitter?;
    PlatformConfigs[p]
  }

  /** Each enumeration lists every value exactly once. */
  lemma EnumerationsComplete()
    ensures |AllPlatforms| == 4
    ensures forall p: Platform :: p in AllPlatforms
    ensures forall i, j :: 0 <= i < j < |AllPlatforms| ==> AllPlatforms[i] != AllPlatforms[j]
    ensures |AllAspectRatios| == 3
    ensures forall r: SourceAspectRatio :: r in AllAspectRatios
    ensures forall i, j :: 0 <= i < j < |AllAspectRatios| ==> AllAspectRatios[i] != AllAspectRatios[j]
  {
    forall p: Platform ensures p in AllPlatforms {
      assert p.Instagram? || p.Facebook? || p.LinkedIn? || p.Twitter?;
    }
    forall r: SourceAspectRatio ensures r in AllAspectRatios {
      assert r.Square? || r.Landscape? || r.Portrait?;
    }
  }

  /** Distinct platforms have distinct string values, so the value
      identifies the platform. */
  lemma PlatformNamesDistinct(p: Platform, q: Platform)
    requires PlatformName(p) == PlatformName(q)
    ensures p == q
  {
  }

  /** No platform name contains a dash, so a dash delimits it in the
      download file name. */
  lemma PlatformNameHasNoDash(p: Platform)
    ensures '-' !in PlatformName(p)
  {
  }
}
