/** The head-to-head preview image of an event: team colour validation, the geometry of
    the two-colour canvas and the logos placed on it, the cache key built from the two
    teams, and the request handler that serves a cached file or renders and stores one.
    Pixels are not modelled: an image is the list of drawing operations fed to GD. */
module FeaturedImage {
  import opened Wrappers
  import opened Text

  // ---------------------------------------------------------------- colours

  const DefaultColor: string := "#FFFFFF"

  /** `#` followed by exactly six hexadecimal digits. */
  predicate IsHexColor(s: string) {
    |s| == 7 && s[0] == '#' && forall i :: 1 <= i < 7 ==> IsHexDigit(s[i])
  }

  /** What `preg_match('/^#[a-fA-F0-9]{6}$/', s)` accepts as written: without the D
      modifier `$` also matches before a final newline, so "#RRGGBB\n" passes. */
  predicate MatchesColorPatternAsWritten(s: string) {
    IsHexColor(s) || (|s| == 8 && s[7] == '\n' && IsHexColor(s[..7]))
  }

  /** A team's colour as the handler computes it: the `primary` entry of its `sp_colors`
      meta unless that is missing or empty, then the pattern check, both falling back to
      white. */
  function TeamColorAsWritten(primary: Option<string>): (c: string)
    ensures MatchesColorPatternAsWritten(c)
    ensures primary.Some? && MatchesColorPatternAsWritten(primary.value) ==> c == primary.value
    ensures !(primary.Some? && MatchesColorPatternAsWritten(primary.value)) ==> c == DefaultColor
  {
    var candidate := if primary.None? || IsEmptyString(primary.value) then DefaultColor else primary.value;
    if MatchesColorPatternAsWritten(candidate) then candidate else DefaultColor
  }

  /** The trailing-newline case: the pattern check as written lets a colour through that is
      not `#` plus six hex digits. */
  lemma ColorCheckAdmitsTrailingNewline()
    ensures TeamColorAsWritten(Some("#ABCDEF\n")) == "#ABCDEF\n"
    ensures !IsHexColor("#ABCDEF\n")
    ensures DecodeColor("#ABCDEF\n") == Rgb(171, 205, 239)
  {
    assert IsHexColor("#ABCDEF\n"[..7]);
  }

  /** The colour check as intended (the pattern anchored at the very end): the result is
      always `#` plus six hex digits; a valid primary colour is kept, anything else (missing,
      empty, malformed) becomes `#FFFFFF`. */
  function TeamColor(primary: Option<string>): (c: string)
    ensures IsHexColor(c)
    ensures primary.Some? && IsHexColor(primary.value) ==> c == primary.value
    ensures !(primary.Some? && IsHexColor(primary.value)) ==> c == DefaultColor
  {
    var candidate := if primary.None? || IsEmptyString(primary.value) then DefaultColor else primary.value;
    if IsHexColor(candidate) then candidate else DefaultColor
  }

  /** A primary colour of the form `#RRGGBB` followed by a newline. */
  predicate NewlineTerminated(primary: Option<string>) {
    primary.Some? && |primary.value| == 8 && primary.value[7] == '\n' && IsHexColor(primary.value[..7])
  }

  /** The colour as written differs from the intended one exactly on a valid colour followed
      by one newline. */
  lemma ColorChecksAgree(primary: Option<string>)
    ensures TeamColorAsWritten(primary) != TeamColor(primary) <==> NewlineTerminated(primary)
  {
    if primary.Some? && |primary.value| == 8 {
      assert !IsHexColor(primary.value);
    }
  }

  datatype Rgb = Rgb(red: int, green: int, blue: int)

  predicate ValidRgb(c: Rgb) {
    0 <= c.red <= 255 && 0 <= c.green <= 255 && 0 <= c.blue <= 255
  }

  /** `sscanf(c, "#%02x%02x%02x")`: the three hex pairs, in order (a trailing newline is
      not read). */
  function DecodeColor(c: string): (rgb: Rgb)
    requires MatchesColorPatternAsWritten(c)
    ensures ValidRgb(rgb)
  {
    Rgb(16 * HexValue(c[1]) + HexValue(c[2]),
        16 * HexValue(c[3]) + HexValue(c[4]),
        16 * HexValue(c[5]) + HexValue(c[6]))
  }

  /** The `#RRGGBB` text of a colour, upper-case digits. */
  function EncodeColor(rgb: Rgb): (c: string)
    requires ValidRgb(rgb)
    ensures IsHexColor(c)
  {
    ['#', HexChar(rgb.red / 16), HexChar(rgb.red % 16),
          HexChar(rgb.green / 16), HexChar(rgb.green % 16),
          HexChar(rgb.blue / 16), HexChar(rgb.blue % 16)]
  }

  /** Decoding the text of a colour gives the colour back. */
  lemma DecodeEncode(rgb: Rgb)
    requires ValidRgb(rgb)
    ensures DecodeColor(EncodeColor(rgb)) == rgb
  {
  }

  /** Encoding a decoded colour gives its text back, up to letter case. */
  lemma EncodeDecode(c: string)
    requires IsHexColor(c)
    ensures EncodeColor(DecodeColor(c)) == Upper(c)
  {
    var rgb := DecodeColor(c);
    PairSplit(HexValue(c[1]), HexValue(c[2]));
    PairSplit(HexValue(c[3]), HexValue(c[4]));
    PairSplit(HexValue(c[5]), HexValue(c[6]));
    var e, u := EncodeColor(rgb), Upper(c);
    HexDigitCase(c[1]);
    HexDigitCase(c[2]);
    HexDigitCase(c[3]);
    HexDigitCase(c[4]);
    HexDigitCase(c[5]);
    HexDigitCase(c[6]);
    assert e[0] == u[0] && e[1] == u[1] && e[2] == u[2];
    assert e[3] == u[3] && e[4] == u[4];
    assert e[5] == u[5] && e[6] == u[6];
  }

  lemma HexDigitCase(ch: char)
    requires IsHexDigit(ch)
    ensures HexChar(HexValue(ch)) == UpperChar(ch)
  {
  }

  lemma PairSplit(hi: int, lo: int)
    requires 0 <= hi <= 15 && 0 <= lo <= 15
    ensures (16 * hi + lo) / 16 == hi && (16 * hi + lo) % 16 == lo
  {
  }

  // ---------------------------------------------------------------- geometry

  const CanvasWidth: int := 1200
  const CanvasHeight: int := 628
  /** 10% of half the width and 10% of the height. */
  const XMargin: real := 0.1 * (CanvasWidth as real / 2.0)
  const YMargin: real := 0.1 * CanvasHeight as real
  /** The box a logo must fit: half the width and the full height, less two margins. */
  const MaxLogoWidth: real := CanvasWidth as real / 2.0 - 2.0 * XMargin
  const MaxLogoHeight: real := CanvasHeight as real - 2.0 * YMargin
  /** `(int) ($width / 4)`, `(int) (3 * $width / 4)` and `(int) ($height / 2)`. */
  const LeftCentreX: int := CanvasWidth / 4
  const RightCentreX: int := 3 * CanvasWidth / 4
  const CentreY: int := CanvasHeight / 2

  lemma CanvasConstants()
    ensures MaxLogoWidth == 480.0 && MaxLogoHeight == 502.4
    ensures LeftCentreX == 300 && RightCentreX == 900 && CentreY == 314
  {
  }

  datatype Size = Size(width: real, height: real)

  /** The size a logo of w x h pixels is drawn at: unchanged when it fits the box, otherwise
      shrunk by the larger of the two overflow ratios so that it fits, keeping its aspect
      ratio and reaching the box in at least one dimension. */
  function FitLogo(w: int, h: int): (s: Size)
    requires w >= 1 && h >= 1
    ensures w as real <= MaxLogoWidth && h as real <= MaxLogoHeight ==> s == Size(w as real, h as real)
    ensures 0.0 < s.width <= MaxLogoWidth && 0.0 < s.height <= MaxLogoHeight
    ensures s.width <= w as real && s.height <= h as real
    ensures s.width * h as real == s.height * w as real
    ensures !(w as real <= MaxLogoWidth && h as real <= MaxLogoHeight) ==>
              s.width == MaxLogoWidth || s.height == MaxLogoHeight
  {
    var lw, lh := w as real, h as real;
    if lw > MaxLogoWidth || lh > MaxLogoHeight then
      var aspect := lw / lh;
      if lw / MaxLogoWidth > lh / MaxLogoHeight then
        ShrinkToWidth(lw, lh);
        Size(MaxLogoWidth, MaxLogoWidth / aspect)
      else
        ShrinkToHeight(lw, lh);
        Size(MaxLogoHeight * aspect, MaxLogoHeight)
    else
      Size(lw, lh)
  }

  lemma ShrinkToWidth(lw: real, lh: real)
    requires lw >= 1.0 && lh >= 1.0 && (lw > MaxLogoWidth || lh > MaxLogoHeight)
    requires lw / MaxLogoWidth > lh / MaxLogoHeight
    ensures var height := MaxLogoWidth / (lw / lh);
            0.0 < height <= MaxLogoHeight && MaxLogoWidth <= lw && height <= lh
            && MaxLogoWidth * lh == height * lw
  {
    CanvasConstants();
    var m, n := MaxLogoWidth, MaxLogoHeight;
    assert lw * n > lh * m by {
      assert lw / m * (m * n) > lh / n * (m * n);
    }
    var height := m / (lw / lh);
    assert height == m * lh / lw;
    assert height * lw == m * lh;
    assert m * lh < n * lw;
    assert height * lw <= n * lw;
    ScaleBelow(height, n, lw);
    if lh > n {
      assert n * m < lh * m;
      assert m * n <= lw * n;
      ScaleBelow(m, lw, n);
    }
    assert m <= lw;
    assert m * lh <= lw * lh;
    assert height * lw <= lh * lw;
    ScaleBelow(height, lh, lw);
  }

  lemma ShrinkToHeight(lw: real, lh: real)
    requires lw >= 1.0 && lh >= 1.0 && (lw > MaxLogoWidth || lh > MaxLogoHeight)
    requires !(lw / MaxLogoWidth > lh / MaxLogoHeight)
    ensures var width := MaxLogoHeight * (lw / lh);
            0.0 < width <= MaxLogoWidth && MaxLogoHeight <= lh && width <= lw
            && width * lh == MaxLogoHeight * lw
  {
    CanvasConstants();
    var m, n := MaxLogoWidth, MaxLogoHeight;
    assert lw * n <= lh * m by {
      assert lw / m * (m * n) <= lh / n * (m * n);
    }
    var width := n * (lw / lh);
    assert width == n * lw / lh;
    assert width * lh == n * lw;
    assert width * lh <= m * lh;
    ScaleBelow(width, m, lh);
    if lw > m {
      assert m * n < lw * n;
      assert n * m <= lh * m;
      ScaleBelow(n, lh, m);
    }
    assert n <= lh;
    assert n * lw <= lh * lw;
    assert width * lh <= lw * lh;
    ScaleBelow(width, lw, lh);
  }

  /** Dividing both sides of an inequality by a positive factor. */
  lemma ScaleBelow(a: real, b: real, c: real)
    requires c > 0.0 && a * c <= b * c
    ensures a <= b
  {
  }

  datatype Point = Point(x: real, y: real)

  /** A drawing call on the canvas: a filled polygon, or a PNG copied (resampled) into the
      rectangle at (x, y) of the given size. */
  datatype DrawOp =
    | FillPolygon(vertices: seq<Point>, color: Rgb)
    | CopyResampled(source: string, x: real, y: real, width: real, height: real, srcWidth: int, srcHeight: int)

  /** The rendered image: its size and the calls that drew it. */
  datatype Canvas = Canvas(width: int, height: int, ops: seq<DrawOp>)

  /** A logo file and the pixel size GD reads from it; an empty path means no logo. */
  datatype LogoFile = LogoFile(path: string, width: int, height: int)

  predicate ValidLogo(l: LogoFile) {
    !IsEmptyString(l.path) ==> l.width >= 1 && l.height >= 1
  }

  /** The left region: top-left, bottom-left, 40% along the bottom, 60% along the top. */
  function LeftRegion(): seq<Point> {
    [Point(0.0, 0.0), Point(0.0, CanvasHeight as real),
     Point(CanvasWidth as real * 0.40, CanvasHeight as real), Point(CanvasWidth as real * 0.60, 0.0)]
  }

  /** The right region: the complement, sharing the slanted edge. */
  function RightRegion(): seq<Point> {
    [Point(CanvasWidth as real, 0.0), Point(CanvasWidth as real, CanvasHeight as real),
     Point(CanvasWidth as real * 0.40, CanvasHeight as real), Point(CanvasWidth as real * 0.60, 0.0)]
  }

  /** The copy of a logo, fitted and centred on (centreX, CentreY). */
  function LogoOp(l: LogoFile, centreX: int): DrawOp
    requires l.width >= 1 && l.height >= 1
  {
    var s := FitLogo(l.width, l.height);
    CopyResampled(l.path, centreX as real - s.width / 2.0, CentreY as real - s.height / 2.0,
                  s.width, s.height, l.width, l.height)
  }

  /** The whole image: both fills, then logo 1 on the left and logo 2 on the right, each
      only when its path is not empty. */
  function BisectedImage(color1: string, color2: string, logo1: LogoFile, logo2: LogoFile): Canvas
    requires MatchesColorPatternAsWritten(color1) && MatchesColorPatternAsWritten(color2)
    requires ValidLogo(logo1) && ValidLogo(logo2)
  {
    Canvas(CanvasWidth, CanvasHeight,
      [FillPolygon(LeftRegion(), DecodeColor(color1)), FillPolygon(RightRegion(), DecodeColor(color2))]
      + (if IsEmptyString(logo1.path) then [] else [LogoOp(logo1, LeftCentreX)])
      + (if IsEmptyString(logo2.path) then [] else [LogoOp(logo2, RightCentreX)]))
  }

  /** A copy operation that draws a w x h logo fitted to the box and centred on (cx, cy). */
  predicate PlacedLogo(op: DrawOp, path: string, w: int, h: int, cx: int, cy: int) {
    && op.CopyResampled? && op.source == path && op.srcWidth == w && op.srcHeight == h
    && op.x + op.width / 2.0 == cx as real && op.y + op.height / 2.0 == cy as real
    && 0.0 < op.width <= MaxLogoWidth && 0.0 < op.height <= MaxLogoHeight
    && op.width * h as real == op.height * w as real
    && (w as real <= MaxLogoWidth && h as real <= MaxLogoHeight ==> op.width == w as real && op.height == h as real)
  }

  /** Sizes and centres one logo (the resize block of `generate_bisected_image`). */
  method PlaceLogo(logo: LogoFile, centreX: int) returns (op: DrawOp)
    requires logo.width >= 1 && logo.height >= 1
    ensures op == LogoOp(logo, centreX)
    ensures PlacedLogo(op, logo.path, logo.width, logo.height, centreX, CentreY)
  {
    var logoWidth, logoHeight := logo.width as real, logo.height as real;
    var newWidth, newHeight := logoWidth, logoHeight;
    if logoWidth > MaxLogoWidth || logoHeight > MaxLogoHeight {
      var aspectRatio := logoWidth / logoHeight;
      if logoWidth / MaxLogoWidth > logoHeight / MaxLogoHeight {
        newWidth := MaxLogoWidth;
        newHeight := MaxLogoWidth / aspectRatio;
      } else {
        newHeight := MaxLogoHeight;
        newWidth := MaxLogoHeight * aspectRatio;
      }
    }
    assert Size(newWidth, newHeight) == FitLogo(logo.width, logo.height);
    var x := centreX as real - newWidth / 2.0;
    var y := CentreY as real - newHeight / 2.0;
    op := CopyResampled(logo.path, x, y, newWidth, newHeight, logo.width, logo.height);
    LogoOpPlaced(logo, centreX);
  }

  /** The drawing call of a logo is that logo, fitted and centred. */
  lemma LogoOpPlaced(logo: LogoFile, centreX: int)
    requires logo.width >= 1 && logo.height >= 1
    ensures PlacedLogo(LogoOp(logo, centreX), logo.path, logo.width, logo.height, centreX, CentreY)
  {
    var s := FitLogo(logo.width, logo.height);
    assert (centreX as real - s.width / 2.0) + s.width / 2.0 == centreX as real;
    assert (CentreY as real - s.height / 2.0) + s.height / 2.0 == CentreY as real;
  }

  /** `generate_bisected_image`: fills the two regions with the decoded colours, then adds
      each logo whose path is not empty, logo 1 centred at (300, 314) and logo 2 at (900, 314). */
  method GenerateBisectedImage(color1: string, color2: string, logo1: LogoFile, logo2: LogoFile)
    returns (image: Canvas)
    requires MatchesColorPatternAsWritten(color1) && MatchesColorPatternAsWritten(color2)
    requires ValidLogo(logo1) && ValidLogo(logo2)
    ensures image == BisectedImage(color1, color2, logo1, logo2)
    ensures image.width == 1200 && image.height == 628
    ensures |image.ops| == 2 + (if IsEmptyString(logo1.path) then 0 else 1) + (if IsEmptyString(logo2.path) then 0 else 1)
    ensures image.ops[0] == FillPolygon(LeftRegion(), DecodeColor(color1))
    ensures image.ops[1] == FillPolygon(RightRegion(), DecodeColor(color2))
    ensures !IsEmptyString(logo1.path) ==> PlacedLogo(image.ops[2], logo1.path, logo1.width, logo1.height, 300, 314)
    ensures !IsEmptyString(logo2.path) ==>
              PlacedLogo(image.ops[|image.ops| - 1], logo2.path, logo2.width, logo2.height, 900, 314)
  {
    CanvasConstants();
    var rgb1 := DecodeColor(color1);
    var rgb2 := DecodeColor(color2);
    var ops := [FillPolygon(LeftRegion(), rgb1), FillPolygon(RightRegion(), rgb2)];
    if !IsEmptyString(logo1.path) {
      var op := PlaceLogo(logo1, LeftCentreX);
      ops := ops + [op];
    }
    if !IsEmptyString(logo2.path) {
      var op := PlaceLogo(logo2, RightCentreX);
      ops := ops + [op];
    }
    image := Canvas(CanvasWidth, CanvasHeight, ops);
  }

  // ---------------------------------------------------------------- cache key

  /** The key of the cached image of a pair of teams: their ids and the text of their
      last-modified timestamps. */
  function CacheKey(team1: int, modified1: string, team2: int, modified2: string): string {
    "team_image_" + IntToString(team1) + "_" + modified1 + "-" + IntToString(team2) + "_" + modified2
  }

  /** A key built from four digit runs determines each of them. */
  lemma KeyParts(x1: string, y1: string, x2: string, y2: string, v1: string, w1: string, v2: string, w2: string)
    requires AllDigits(x1) && AllDigits(y1) && AllDigits(x2) && AllDigits(y2)
    requires AllDigits(v1) && AllDigits(w1) && AllDigits(v2) && AllDigits(w2)
    requires "team_image_" + x1 + "_" + y1 + "-" + x2 + "_" + y2 == "team_image_" + v1 + "_" + w1 + "-" + v2 + "_" + w2
    ensures x1 == v1 && y1 == w1 && x2 == v2 && y2 == w2
  {
    var p := "team_image_";
    var r1 := y1 + ['-'] + (x2 + ['_'] + y2);
    var r2 := w1 + ['-'] + (v2 + ['_'] + w2);
    var k1 := p + (x1 + ['_'] + r1);
    var k2 := p + (v1 + ['_'] + r2);
    assert k1 == "team_image_" + x1 + "_" + y1 + "-" + x2 + "_" + y2;
    assert k2 == "team_image_" + v1 + "_" + w1 + "-" + v2 + "_" + w2;
    assert k1[|p|..] == x1 + ['_'] + r1;
    assert k2[|p|..] == v1 + ['_'] + r2;
    SplitAtSeparator(x1, r1, v1, r2, '_');
    SplitAtSeparator(y1, x2 + ['_'] + y2, w1, v2 + ['_'] + w2, '-');
    SplitAtSeparator(x2, y2, v2, w2, '_');
  }

  /** For non-negative ids and timestamps, different pairs of teams or different
      modification times never share a key. */
  lemma CacheKeyInjective(a1: nat, t1: nat, a2: nat, t2: nat, b1: nat, u1: nat, b2: nat, u2: nat)
    requires CacheKey(a1, NatToString(t1), a2, NatToString(t2)) == CacheKey(b1, NatToString(u1), b2, NatToString(u2))
    ensures a1 == b1 && t1 == u1 && a2 == b2 && t2 == u2
  {
    KeyParts(NatToString(a1), NatToString(t1), NatToString(a2), NatToString(t2),
             NatToString(b1), NatToString(u1), NatToString(b2), NatToString(u2));
    NatToStringInjective(a1, b1);
    NatToStringInjective(t1, u1);
    NatToStringInjective(a2, b2);
    NatToStringInjective(t2, u2);
  }

  /** A team that is edited gets a new timestamp, and so a new key: the old image is not reused. */
  lemma NewTimestampNewKey(a1: nat, t1: nat, a2: nat, t2: nat, t1': nat, t2': nat)
    requires t1 != t1' || t2 != t2'
    ensures CacheKey(a1, NatToString(t1), a2, NatToString(t2)) != CacheKey(a1, NatToString(t1'), a2, NatToString(t2'))
  {
    if CacheKey(a1, NatToString(t1), a2, NatToString(t2)) == CacheKey(a1, NatToString(t1'), a2, NatToString(t2')) {
      CacheKeyInjective(a1, t1, a2, t2, a1, t1', a2, t2');
    }
  }

  // ---------------------------------------------------------------- the request

  /** What the handler reads of a post, event or team: its type, the Unix timestamp of its
      last modification, its `sp_team` ids, the `primary` entry of its `sp_colors` meta, the
      URL of its featured image ("" when it has none) and that image's attached file. */
  datatype Post = Post(postType: string, modified: int, teamIds: seq<int>,
                       primaryColor: Option<string>, thumbnailUrl: string, logo: LogoFile)

  /** The posts of the site by id, and the current upload directory. */
  datatype Site = Site(posts: map<int, Post>, uploadPath: string)

  /** Every logo file that exists decodes to an image of positive size. */
  predicate ValidSite(site: Site) {
    forall id :: id in site.posts ==> ValidLogo(site.posts[id].logo)
  }

  function GetPost(site: Site, id: int): Option<Post> {
    if id in site.posts then Some(site.posts[id]) else None
  }

  /** The timestamp as interpolated into the key; a missing team gives the empty text. */
  function ModifiedText(team: Option<Post>): string {
    if team.Some? then IntToString(team.value.modified) else ""
  }

  function PrimaryColor(team: Option<Post>): Option<string> {
    if team.Some? then team.value.primaryColor else None
  }

  function ThumbnailUrl(team: Option<Post>): string {
    if team.Some? then team.value.thumbnailUrl else ""
  }

  function Logo(team: Option<Post>): LogoFile {
    if team.Some? then team.value.logo else LogoFile("", 0, 0)
  }

  lemma ValidLogoOf(site: Site, team: Option<Post>, id: int)
    requires ValidSite(site) && team == GetPost(site, id)
    ensures ValidLogo(Logo(team))
  {
  }

  /** `DAY_IN_SECONDS * 30`. */
  const CacheLifetime: int := 30 * 86400

  datatype Transient = Transient(value: string, lifetime: int)

  /** Where `save_image_to_cache` writes the image of a key. */
  function CachedImagePath(uploadPath: string, key: string): string {
    uploadPath + "/" + key + ".png"
  }

  /** What the handler sends back: nothing (the page goes on rendering), the image with
      status 200, or status 404 with a message. */
  datatype Response = NoResponse | ImageFile(status: int, image: Canvas) | NotFound(status: int, message: string)

  /** `serve_image`: the stored file when it exists, otherwise a 404. */
  function ServeImage(files: map<string, Canvas>, path: string): Response {
    if path in files then ImageFile(200, files[path]) else NotFound(404, "Image not found.")
  }

  /** The transients (key to file path, with lifetime) and the image files on disk. */
  datatype CacheState = CacheState(transients: map<string, Transient>, files: map<string, Canvas>)

  /** The key the request for an event with these teams looks up. */
  function RequestKey(site: Site, teamIds: seq<int>): string
    requires |teamIds| >= 2
  {
    var team1, team2 := GetPost(site, teamIds[0]), GetPost(site, teamIds[1]);
    CacheKey(teamIds[0], ModifiedText(team1), teamIds[1], ModifiedText(team2))
  }

  /** A transient for the key that names a file present on disk. */
  predicate CacheHit(st: CacheState, key: string) {
    key in st.transients && !IsEmptyString(st.transients[key].value) && st.transients[key].value in st.files
  }

  /** The two readings of the colour pattern: PCRE's, where `$` also matches before a final
      newline, and the evidently intended one, anchored at the very end. */
  datatype PatternReading = AsWritten | AnchoredAtEnd

  /** A team's colour under a reading of the pattern. */
  function CheckedColor(reading: PatternReading, primary: Option<string>): (c: string)
    ensures MatchesColorPatternAsWritten(c)
  {
    if reading.AsWritten? then TeamColorAsWritten(primary) else TeamColor(primary)
  }

  /** Both teams have the default colour and no featured image. */
  predicate NothingToDraw(reading: PatternReading, team1: Option<Post>, team2: Option<Post>) {
    && CheckedColor(reading, PrimaryColor(team1)) == DefaultColor && IsEmptyString(ThumbnailUrl(team1))
    && CheckedColor(reading, PrimaryColor(team2)) == DefaultColor && IsEmptyString(ThumbnailUrl(team2))
  }

  /** `handle_image_request` on a cache state, as written: the new state and the response. */
  function ImageRequest(st: CacheState, site: Site, postParam: Option<int>): (CacheState, Response)
    requires ValidSite(site)
  {
    ImageRequestUnder(AsWritten, st, site, postParam)
  }

  /** `handle_image_request` with the colour pattern read one way or the other. */
  function ImageRequestUnder(reading: PatternReading, st: CacheState, site: Site, postParam: Option<int>)
    : (CacheState, Response)
    requires ValidSite(site)
  {
    if postParam.None? || postParam.value !in site.posts then (st, NoResponse)
    else
      var teamIds := site.posts[postParam.value].teamIds;
      if |teamIds| < 2 then (st, NoResponse)
      else
        var key := RequestKey(site, teamIds);
        if CacheHit(st, key) then (st, ServeImage(st.files, st.transients[key].value))
        else
          var team1, team2 := GetPost(site, teamIds[0]), GetPost(site, teamIds[1]);
          if NothingToDraw(reading, team1, team2) then (st, NoResponse)
          else
            ValidLogoOf(site, team1, teamIds[0]);
            ValidLogoOf(site, team2, teamIds[1]);
            var image := BisectedImage(CheckedColor(reading, PrimaryColor(team1)),
                                       CheckedColor(reading, PrimaryColor(team2)), Logo(team1), Logo(team2));
            var path := CachedImagePath(site.uploadPath, key);
            var files := st.files[path := image];
            (CacheState(st.transients[key := Transient(path, CacheLifetime)], files), ServeImage(files, path))
  }

  /** The cache as the handler sees it: the transient store and the files on disk. */
  class ImageCache {
    var transients: map<string, Transient>
    var files: map<string, Canvas>

    constructor ()
      ensures transients == map[] && files == map[]
    {
      transients := map[];
      files := map[];
    }

    function State(): CacheState
      reads this
    {
      CacheState(transients, files)
    }

    /** `save_image_to_cache`: writes the image to `upload path/key.png` and returns that path. */
    method SaveImageToCache(image: Canvas, key: string, uploadPath: string) returns (path: string)
      modifies this`files
      ensures path == CachedImagePath(uploadPath, key)
      ensures files == old(files)[path := image]
    {
      path := uploadPath + "/" + key + ".png";
      files := files[path := image];
    }

    /** `handle_image_request`: the checks in the order the handler makes them, then either
        the cached file or a newly generated one. */
    method HandleImageRequest(site: Site, postParam: Option<int>) returns (response: Response)
      requires ValidSite(site)
      modifies this
      ensures (State(), response) == ImageRequest(old(State()), site, postParam)
    {
      if postParam.None? {
        return NoResponse;
      }
      var post := GetPost(site, postParam.value);
      if post.None? {
        return NoResponse;
      }
      var teamIds := post.value.teamIds;
      if |teamIds| < 2 {
        return NoResponse;
      }
      var team1Id, team2Id := teamIds[0], teamIds[1];
      var team1, team2 := GetPost(site, team1Id), GetPost(site, team2Id);
      var cacheKey := CacheKey(team1Id, ModifiedText(team1), team2Id, ModifiedText(team2));
      if cacheKey in transients {
        var cachedImagePath := transients[cacheKey].value;
        if !IsEmptyString(cachedImagePath) && cachedImagePath in files {
          return ServeImage(files, cachedImagePath);
        }
      }
      var color1 := TeamColorAsWritten(PrimaryColor(team1));
      var color2 := TeamColorAsWritten(PrimaryColor(team2));
      if color1 == DefaultColor && IsEmptyString(ThumbnailUrl(team1))
         && color2 == DefaultColor && IsEmptyString(ThumbnailUrl(team2)) {
        return NoResponse;
      }
      ValidLogoOf(site, team1, team1Id);
      ValidLogoOf(site, team2, team2Id);
      var image := GenerateBisectedImage(color1, color2, Logo(team1), Logo(team2));
      var imagePath := SaveImageToCache(image, cacheKey, site.uploadPath);
      transients := transients[cacheKey := Transient(imagePath, CacheLifetime)];
      response := ServeImage(files, imagePath);
    }
  }

  // ---------------------------------------------------------------- properties of a request

  /** No `post` parameter, a missing post, fewer than two teams, or two teams with nothing to
      draw: the cache is left as it was and nothing is sent. */
  lemma EarlyReturnsTouchNothing(st: CacheState, site: Site, postParam: Option<int>)
    requires ValidSite(site)
    requires || postParam.None? || postParam.value !in site.posts
             || |site.posts[postParam.value].teamIds| < 2
             || (var ids := site.posts[postParam.value].teamIds;
                 !CacheHit(st, RequestKey(site, ids)) && NothingToDraw(AsWritten, GetPost(site, ids[0]), GetPost(site, ids[1])))
    ensures ImageRequest(st, site, postParam) == (st, NoResponse)
  {
  }

  /** The guard only rejects a missing post: the post's type is never consulted, so any post
      with two team ids is handled as an event would be. */
  lemma PostTypeIgnored(st: CacheState, site: Site, postId: int, otherType: string)
    requires ValidSite(site) && postId in site.posts
    ensures var site' := site.(posts := site.posts[postId := site.posts[postId].(postType := otherType)]);
            ValidSite(site') && ImageRequest(st, site, Some(postId)) == ImageRequest(st, site', Some(postId))
  {
    var site' := site.(posts := site.posts[postId := site.posts[postId].(postType := otherType)]);
    forall id | true
      ensures ModifiedText(GetPost(site, id)) == ModifiedText(GetPost(site', id))
      ensures PrimaryColor(GetPost(site, id)) == PrimaryColor(GetPost(site', id))
      ensures ThumbnailUrl(GetPost(site, id)) == ThumbnailUrl(GetPost(site', id))
      ensures Logo(GetPost(site, id)) == Logo(GetPost(site', id))
    {
    }
    if |site.posts[postId].teamIds| >= 2 {
      var ids := site.posts[postId].teamIds;
      assert RequestKey(site, ids) == RequestKey(site', ids);
    }
  }

  /** A transient naming a file on disk: that file is sent unchanged and nothing is
      generated or written. */
  lemma CacheHitServesStoredFile(st: CacheState, site: Site, postId: int)
    requires ValidSite(site) && postId in site.posts && |site.posts[postId].teamIds| >= 2
    requires CacheHit(st, RequestKey(site, site.posts[postId].teamIds))
    ensures var path := st.transients[RequestKey(site, site.posts[postId].teamIds)].value;
            ImageRequest(st, site, Some(postId)) == (st, ImageFile(200, st.files[path]))
  {
  }

  /** No usable transient and something to draw: the image is written to `upload path/key.png`,
      the key is mapped to that path for 30 days, nothing else changes, and the new file is sent. */
  lemma CacheMissWritesFile(st: CacheState, site: Site, postId: int)
    requires ValidSite(site) && postId in site.posts && |site.posts[postId].teamIds| >= 2
    requires var ids := site.posts[postId].teamIds;
             !CacheHit(st, RequestKey(site, ids)) && !NothingToDraw(AsWritten, GetPost(site, ids[0]), GetPost(site, ids[1]))
    ensures var ids := site.posts[postId].teamIds;
            var key := RequestKey(site, ids);
            var path := CachedImagePath(site.uploadPath, key);
            var (st', response) := ImageRequest(st, site, Some(postId));
            && st'.transients == st.transients[key := Transient(path, 30 * 86400)]
            && path in st'.files && st'.files == st.files[path := st'.files[path]]
            && response == ImageFile(200, st'.files[path])
            && st'.files[path].width == 1200 && st'.files[path].height == 628
  ensures var ids := site.posts[postId].teamIds;
          var team1, team2 := GetPost(site, ids[0]), GetPost(site, ids[1]);
          && ValidLogo(Logo(team1)) && ValidLogo(Logo(team2))
          && ImageRequest(st, site, Some(postId)).0.files[CachedImagePath(site.uploadPath, RequestKey(site, ids))]
             == BisectedImage(CheckedColor(AsWritten, PrimaryColor(team1)), CheckedColor(AsWritten, PrimaryColor(team2)),
                              Logo(team1), Logo(team2))
  {
    var ids := site.posts[postId].teamIds;
    ValidLogoOf(site, GetPost(site, ids[0]), ids[0]);
    ValidLogoOf(site, GetPost(site, ids[1]), ids[1]);
  }

  /** Once a request has been handled, repeating it changes nothing and sends the same
      response: a new image is cached and then served from the cache. */
  lemma {:induction false} RepeatedRequestServesSame(st: CacheState, site: Site, postParam: Option<int>)
    requires ValidSite(site)
    ensures var (st1, r1) := ImageRequest(st, site, postParam);
            ImageRequest(st1, site, postParam) == (st1, r1)
  {
    var (st1, r1) := ImageRequest(st, site, postParam);
    if postParam.Some? && postParam.value in site.posts && |site.posts[postParam.value].teamIds| >= 2 {
      var ids := site.posts[postParam.value].teamIds;
      var key := RequestKey(site, ids);
      if !CacheHit(st, key) && !NothingToDraw(AsWritten, GetPost(site, ids[0]), GetPost(site, ids[1])) {
        var path := CachedImagePath(site.uploadPath, key);
        assert |path| >= 5;
        assert CacheHit(st1, key);
      }
    }
  }

  /** Without a newline-terminated primary colour among the site's posts, the handler as
      written behaves exactly as the intended one. */
  lemma ReadingsAgree(st: CacheState, site: Site, postParam: Option<int>)
    requires ValidSite(site)
    requires forall id :: id in site.posts ==> !NewlineTerminated(site.posts[id].primaryColor)
    ensures ImageRequest(st, site, postParam) == ImageRequestUnder(AnchoredAtEnd, st, site, postParam)
  {
    if postParam.Some? && postParam.value in site.posts && |site.posts[postParam.value].teamIds| >= 2 {
      var ids := site.posts[postParam.value].teamIds;
      var team1, team2 := GetPost(site, ids[0]), GetPost(site, ids[1]);
      ColorChecksAgree(PrimaryColor(team1));
      ColorChecksAgree(PrimaryColor(team2));
    }
  }

  /** The white-with-newline case: two teams whose primary colour is `"#FFFFFF\n"` and
      which have no featured image get an image generated, stored and served, while the
      intended check finds nothing to draw and sends nothing. */
  lemma WhiteWithNewlineIsDrawn()
    ensures var team := Post("sp_team", 0, [], Some("#FFFFFF\n"), "", LogoFile("", 0, 0));
            var site := Site(map[1 := Post("sp_event", 0, [2, 3], None, "", LogoFile("", 0, 0)),
                                 2 := team, 3 := team], "/uploads");
            var st := CacheState(map[], map[]);
            && ValidSite(site)
            && ImageRequest(st, site, Some(1)).1.ImageFile?
            && ImageRequestUnder(AnchoredAtEnd, st, site, Some(1)) == (st, NoResponse)
  {
    var team := Post("sp_team", 0, [], Some("#FFFFFF\n"), "", LogoFile("", 0, 0));
    assert IsHexColor("#FFFFFF\n"[..7]);
    assert TeamColorAsWritten(team.primaryColor) == "#FFFFFF\n";
    assert TeamColor(team.primaryColor) == DefaultColor;
  }
}
