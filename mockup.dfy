/** The platform mockup: a pure choice of header text, image ratio and block
    order from the platform and the selected aspect ratio. The markup is
    reduced to the sequence of blocks it stacks from top to bottom. */
module Mockup {
  import opened Options
  import opened Strings
  import opened Types

  /** The name the header shows when the username field is empty. */
  function NameFallback(p: Platform): string {
    match p
    case Instagram => "username"
    case Facebook => "Username"
    case LinkedIn => "Your Name"
    case Twitter => "Username"
  }

  /** `username || fallback`: the name shown in the header (and, on
      Instagram, in front of the caption). */
  function DisplayName(p: Platform, username: string): (name: string)
    ensures name != ""
    ensures username != "" ==> name == username
    ensures username == "" ==> name == NameFallback(p)
  {
    if username != "" then username else NameFallback(p)
  }

  /** The Twitter handle: the username lower-cased with every whitespace
      character removed, or `user` when the username is blank (empty or
      whitespace only). It is never empty and holds neither whitespace nor
      an upper-case ASCII letter. */
  function TwitterHandle(username: string): (h: string)
    ensures h != ""
    ensures NoSpace(h)
    ensures forall i :: 0 <= i < |h| ==> !IsAsciiUpper(h[i])
    ensures (forall i :: 0 <= i < |username| ==> IsSpace(username[i])) ==> h == "user"
    ensures (exists i :: 0 <= i < |username| && !IsSpace(username[i])) ==> h == RemoveSpaces(ToLower(username))
  {
    var stripped := RemoveSpaces(ToLower(username));
    assert forall c :: c in ToLower(username) ==> !IsAsciiUpper(c);
    HandleFallsBackOnBlank(username);
    if stripped == "" then "user" else stripped
  }

  /** Lower-casing keeps a character whitespace exactly when it was. */
  lemma LowerKeepsSpaces(s: string)
    ensures forall i :: 0 <= i < |s| ==> (IsSpace(ToLower(s)[i]) <==> IsSpace(s[i]))
  {
  }

  /** The handle falls back to `user` exactly when the username is
      nothing but whitespace (the empty username included). */
  lemma {:induction false} HandleFallsBackOnBlank(username: string)
    ensures RemoveSpaces(ToLower(username)) == "" <==> forall i :: 0 <= i < |username| ==> IsSpace(username[i])
  {
    LowerKeepsSpaces(username);
  }

  lemma {:induction false} LowerOfLower(s: string)
    requires forall i :: 0 <= i < |s| ==> !IsAsciiUpper(s[i])
    ensures ToLower(s) == s
  {
  }

  /** Deriving a handle from a handle gives it back unchanged. */
  lemma {:induction false} TwitterHandleIdempotent(username: string)
    ensures TwitterHandle(TwitterHandle(username)) == TwitterHandle(username)
  {
    var h := TwitterHandle(username);
    LowerOfLower(h);
    assert RemoveSpaces(ToLower(h)) == h;
  }

  /** The CSS `aspect-ratio` given to the image box. */
  function DisplayRatio(r: SourceAspectRatio): string {
    match r
    case Square => "1 / 1"
    case Landscape => "1.91 / 1"
    case Portrait => "4 / 5"
  }

  function Pow10(n: nat): (p: nat)
    ensures p >= 1
  {
    if n == 0 then 1 else 10 * Pow10(n - 1)
  }

  /** A non-negative CSS number written with digits and at most one
      decimal point. */
  function ParseNumber(s: string): Option<real> {
    var parts := Split(s, '.');
    if parts[0] == [] || !AllDigits(parts[0]) then None
    else if |parts| == 1 then Some(DigitsValue(parts[0]) as real)
    else if |parts| == 2 && parts[1] != [] && AllDigits(parts[1]) then
      Some(DigitsValue(parts[0]) as real + DigitsValue(parts[1]) as real / Pow10(|parts[1]|) as real)
    else None
  }

  /** The value of a CSS ratio written `<number> / <number>`, as an exact
      rational; `None` when it is not of that form or divides by zero. */
  function RatioValue(s: string): Option<real> {
    var parts := Split(s, ' ');
    if |parts| != 3 || parts[1] != "/" then None
    else
      match (ParseNumber(parts[0]), ParseNumber(parts[2]))
      case (Some(a), Some(b)) => if b == 0.0 then None else Some(a / b)
      case _ => None
  }

  /** A run of digits reads as its decimal value. */
  lemma ParseWhole(a: string)
    requires a != [] && AllDigits(a)
    ensures ParseNumber(a) == Some(DigitsValue(a) as real)
  {
    SplitWithoutSeparator(a, '.');
  }

  /** Digits, a point and digits read as a decimal fraction. */
  lemma ParseFraction(a: string, b: string)
    requires a != [] && AllDigits(a) && b != [] && AllDigits(b)
    ensures ParseNumber(a + "." + b)
              == Some(DigitsValue(a) as real + DigitsValue(b) as real / Pow10(|b|) as real)
  {
    SplitAtPoint(a, b);
    ParseSplitFraction(a, b);
  }

  lemma ParseSplitFraction(a: string, b: string)
    requires a != [] && AllDigits(a) && b != [] && AllDigits(b)
    requires Split(a + "." + b, '.') == [a, b]
    ensures ParseNumber(a + "." + b)
              == Some(DigitsValue(a) as real + DigitsValue(b) as real / Pow10(|b|) as real)
  {
    var parts := Split(a + "." + b, '.');
    assert parts[0] == a;
    assert parts[1] == b;
  }

  lemma SplitAtPoint(a: string, b: string)
    requires AllDigits(a) && AllDigits(b)
    ensures Split(a + "." + b, '.') == [a, b]
  {
    DigitsHaveNoPoint(a);
    DigitsHaveNoPoint(b);
    assert a + "." + b == a + ['.'] + b;
    SplitAtFirst(a, '.', b);
    SplitWithoutSeparator(b, '.');
  }

  lemma DigitsHaveNoPoint(a: string)
    requires AllDigits(a)
    ensures '.' !in a
  {
    assert forall i :: 0 <= i < |a| ==> IsDigit(a[i]);
  }

  /** Two numbers around a spaced slash read as their quotient. */
  lemma RatioOfNumbers(a: string, b: string, x: real, y: real)
    requires ' ' !in a && ' ' !in b
    requires ParseNumber(a) == Some(x) && ParseNumber(b) == Some(y) && y != 0.0
    ensures RatioValue(a + " / " + b) == Some(x / y)
  {
    assert a + " / " + b == a + [' '] + ("/" + [' '] + b);
    SplitAtFirst(a, ' ', "/" + [' '] + b);
    SplitAtFirst("/", ' ', b);
    SplitWithoutSeparator(b, ' ');
  }

  /** The caption that Instagram shows under the action icons, after the
      author's name. */
  datatype SignedCaption = SignedCaption(author: string, caption: string, hashtags: string)

  /** One block of the mockup. `Header` carries the shown name and, on
      Twitter only, the handle; `Actions` carries Instagram's caption. */
  datatype Block =
    | Header(name: string, handle: Option<string>)
    | CaptionText(caption: string, hashtags: string)
    | Picture(src: string, aspectRatio: string)
    | Actions(signedCaption: Option<SignedCaption>)

  /** The rendered mockup: the container width and its blocks, top to bottom. */
  datatype View = View(width: nat, blocks: seq<Block>)

  function RenderHeader(p: Platform, username: string): (b: Block)
    ensures b.Header?
  {
    Header(DisplayName(p, username),
           if p == Twitter then Some(TwitterHandle(username)) else None)
  }

  function RenderActions(p: Platform, username: string, caption: string, hashtags: string): (b: Block)
    ensures b.Actions?
  {
    if p == Instagram then Actions(Some(SignedCaption(DisplayName(p, username), caption, hashtags)))
    else Actions(None)
  }

  /** The whole mockup: the container is as wide as the platform's
      configured width; the header comes first and the action bar last;
      the header shows the username or the platform's fallback, with a
      handle on Twitter only. */
  function Render(p: Platform, username: string, image: string, ratio: SourceAspectRatio,
                  caption: string, hashtags: string): (v: View)
    ensures v.width == ConfigFor(p).width
    ensures |v.blocks| >= 3
    ensures v.blocks[0].Header? && v.blocks[|v.blocks| - 1].Actions?
    ensures v.blocks[0].name == (if username == "" then NameFallback(p) else username)
    ensures v.blocks[0].handle.Some? <==> p == Twitter
  {
    var picture := Picture(image, DisplayRatio(ratio));
    var body := if p == Instagram then [picture] else [CaptionText(caption, hashtags), picture];
    View(ConfigFor(p).width,
         [RenderHeader(p, username)] + body + [RenderActions(p, username, caption, hashtags)])
  }

  /** Every layout shows the uploaded image exactly once, at the display
      ratio of the selected aspect ratio. */
  lemma PictureAppearsOnce(p: Platform, username: string, image: string, ratio: SourceAspectRatio,
                           caption: string, hashtags: string)
    ensures var bs := Render(p, username, image, ratio, caption, hashtags).blocks;
      exists i :: 0 <= i < |bs| && bs[i] == Picture(image, DisplayRatio(ratio))
        && forall j :: 0 <= j < |bs| && j != i ==> !bs[j].Picture?
  {
    var bs := Render(p, username, image, ratio, caption, hashtags).blocks;
    var i := if p == Instagram then 1 else 2;
    assert bs[i] == Picture(image, DisplayRatio(ratio));
  }

  /** On Twitter, Facebook and LinkedIn the caption and hashtags stand in
      their own block above the image; on Instagram there is no such block
      and they follow the author's name inside the action bar, below the
      image. */
  lemma CaptionPlacement(p: Platform, username: string, image: string, ratio: SourceAspectRatio,
                         caption: string, hashtags: string)
    ensures var bs := Render(p, username, image, ratio, caption, hashtags).blocks;
      p != Instagram ==>
        (exists i, j :: 0 <= i < j < |bs| && bs[i] == CaptionText(caption, hashtags) && bs[j].Picture?)
        && bs[|bs| - 1].signedCaption.None?
    ensures var bs := Render(p, username, image, ratio, caption, hashtags).blocks;
      p == Instagram ==>
        (forall i :: 0 <= i < |bs| ==> !bs[i].CaptionText?)
        && (exists j :: 0 <= j < |bs| - 1 && bs[j].Picture?)
        && bs[|bs| - 1].signedCaption == Some(SignedCaption(DisplayName(p, username), caption, hashtags))
  {
    var bs := Render(p, username, image, ratio, caption, hashtags).blocks;
    if p == Instagram {
      assert bs[1].Picture?;
    } else {
      assert bs[1] == CaptionText(caption, hashtags) && bs[2].Picture?;
    }
  }
}
