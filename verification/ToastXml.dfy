/**
 The toast XML (toast_xml.rs `build_toast_xml`) and a reader of its fixed
 template. The reader recovers every field from the built string, so two toasts
 with different visible content never produce the same XML.
 */
module ToastXml {
  import opened Model
  import opened XmlText
  import opened FileUri

  const OPEN: string := "<toast><visual><binding template=\"ToastGeneric\">"
  const MIDDLE: string := "</binding></visual>"
  const CLOSE: string := "</toast>"
  const TEXT_OPEN: string := "<text>"
  const TEXT_CLOSE: string := "</text>"
  const ATTRIBUTION_OPEN: string := "<text placement=\"attribution\">"
  const IMAGE_OPEN: string := "<image placement=\"appLogoOverride\""
  const CROP_CIRCLE: string := " hint-crop=\"circle\""
  const SRC_OPEN: string := " src=\""
  const IMAGE_CLOSE: string := "\"/>"
  const ACTION_OPEN: string := "<actions><action content=\""
  const ACTION_MIDDLE: string := "\" arguments=\""
  const ACTION_CLOSE: string := "\" activationType=\"protocol\"/></actions>"

  // ---------------------------------------------------------------------------
  // The builder

  function ImageElement(shape: ImageShape, path: seq<Byte>): string {
    IMAGE_OPEN + (if shape.Circle? then CROP_CIRCLE else "") + SRC_OPEN + XmlEscape(FileUriOf(path)) + IMAGE_CLOSE
  }

  function ActionElement(caption: string, url: string): string {
    ACTION_OPEN + XmlEscape(caption) + ACTION_MIDDLE + XmlEscape(url) + ACTION_CLOSE
  }

  function ImagePart(toast: ToastRequest, imagePath: Option<seq<Byte>>): string {
    match (imagePath, toast.image)
    case (Some(path), Some(ref)) => ImageElement(ref.shape, path)
    case _ => ""
  }

  function AttributionPart(toast: ToastRequest): string {
    match toast.attribution
    case Some(a) => ATTRIBUTION_OPEN + XmlEscape(a) + TEXT_CLOSE
    case None => ""
  }

  function ActionPart(lib: Libraries, toast: ToastRequest): string {
    match (toast.actionLabel, toast.actionUrl)
    case (Some(caption), Some(url)) =>
      (match lib.validateUrl(url)
       case Some(valid) => ActionElement(caption, valid)
       case None => "")
    case _ => ""
  }

  function BuildToastXml(lib: Libraries, toast: ToastRequest, imagePath: Option<seq<Byte>>): string {
    OPEN + ImagePart(toast, imagePath)
    + TEXT_OPEN + XmlEscape(toast.title) + TEXT_CLOSE
    + TEXT_OPEN + XmlEscape(toast.message) + TEXT_CLOSE
    + AttributionPart(toast) + MIDDLE + ActionPart(lib, toast) + CLOSE
  }

  // ---------------------------------------------------------------------------
  // What a toast shows

  datatype XmlImage = XmlImage(shape: ImageShape, path: seq<Byte>)

  datatype XmlAction = XmlAction(caption: string, url: string)

  datatype Content = Content(
    image: Option<XmlImage>,
    title: string,
    message: string,
    attribution: Option<string>,
    action: Option<XmlAction>)

  /** The visible content: an image needs a cached file, an action needs a caption and a valid URL. */
  function Visible(lib: Libraries, toast: ToastRequest, imagePath: Option<seq<Byte>>): Content {
    Content(
      if imagePath.Some? && toast.image.Some?
      then Some(XmlImage(toast.image.value.shape, NormalPath(imagePath.value))) else None,
      toast.title,
      toast.message,
      toast.attribution,
      if toast.actionLabel.Some? && toast.actionUrl.Some? && lib.validateUrl(toast.actionUrl.value).Some?
      then Some(XmlAction(toast.actionLabel.value, lib.validateUrl(toast.actionUrl.value).value)) else None)
  }

  // ---------------------------------------------------------------------------
  // The reader

  // It spells the template out, so the builder's pieces are compared with the template itself.

  /** A successful read: the value and the text that follows it. */
  datatype Read<+T> = NoRead | Got(value: T, rest: string)

  function Strip(p: string, s: string): Read<()> {
    if p <= s then Got((), s[|p|..]) else NoRead
  }

  function Until(c: char, s: string): (r: Read<string>)
    ensures r.Got?
  {
    if s == [] || s[0] == c then Got([], s) else
    var r := Until(c, s[1..]);
    Got([s[0]] + r.value, r.rest)
  }

  /** Character data up to `stop`, then the closing text. */
  function ReadData(stop: char, close: string, s: string): Read<string> {
    var data := Until(stop, s);
    var end := Strip(close, data.rest);
    if end.NoRead? then NoRead else Got(Unescape(data.value), end.rest)
  }

  function ReadText(open: string, s: string): Read<string> {
    var start := Strip(open, s);
    if start.NoRead? then NoRead else ReadData('<', "</text>", start.rest)
  }

  function ReadSource(shape: ImageShape, s: string): Read<XmlImage> {
    var start := Strip(" src=\"", s);
    if start.NoRead? then NoRead else
    var uri := ReadData('"', "\"/>", start.rest);
    if uri.NoRead? || !("file:///" <= uri.value) then NoRead else
    var path := PercentDecode(uri.value[8..]);
    if path.None? then NoRead else Got(XmlImage(shape, path.value), uri.rest)
  }

  function ReadImage(s: string): Read<Option<XmlImage>> {
    var start := Strip("<image placement=\"appLogoOverride\"", s);
    if start.NoRead? then Got(None, s) else
    var crop := Strip(" hint-crop=\"circle\"", start.rest);
    var image := if crop.Got? then ReadSource(Circle, crop.rest) else ReadSource(Square, start.rest);
    if image.NoRead? then NoRead else Got(Some(image.value), image.rest)
  }

  function ReadAttribution(s: string): Read<Option<string>> {
    if !("<text placement=\"attribution\">" <= s) then Got(None, s) else
    var text := ReadText("<text placement=\"attribution\">", s);
    if text.NoRead? then NoRead else Got(Some(text.value), text.rest)
  }

  function ReadAction(s: string): Read<Option<XmlAction>> {
    var start := Strip("<actions><action content=\"", s);
    if start.NoRead? then Got(None, s) else
    var caption := ReadData('"', "\" arguments=\"", start.rest);
    if caption.NoRead? then NoRead else
    var url := ReadData('"', "\" activationType=\"protocol\"/></actions>", caption.rest);
    if url.NoRead? then NoRead else Got(Some(XmlAction(caption.value, url.value)), url.rest)
  }

  /** Everything after the two texts. */
  function ReadEnd(s: string): Option<(Option<string>, Option<XmlAction>)> {
    var attribution := ReadAttribution(s);
    if attribution.NoRead? then None else
    var middle := Strip("</binding></visual>", attribution.rest);
    if middle.NoRead? then None else
    var action := ReadAction(middle.rest);
    if action.NoRead? || action.rest != "</toast>" then None else
    Some((attribution.value, action.value))
  }

  function ReadToast(xml: string): Option<Content> {
    var start := Strip("<toast><visual><binding template=\"ToastGeneric\">", xml);
    if start.NoRead? then None else
    var image := ReadImage(start.rest);
    if image.NoRead? then None else
    var title := ReadText("<text>", image.rest);
    if title.NoRead? then None else
    var message := ReadText("<text>", title.rest);
    if message.NoRead? then None else
    var end := ReadEnd(message.rest);
    if end.None? then None else
    Some(Content(image.value, title.value, message.value, end.value.0, end.value.1))
  }

  // ---------------------------------------------------------------------------
  // Reading back each piece

  lemma StripOwnPrefix(p: string, rest: string)
    ensures Strip(p, p + rest) == Got((), rest)
  {
    assert (p + rest)[|p|..] == rest;
  }

  /** Two texts that differ in their second character are not prefixes of one another. */
  lemma SecondCharacterDecides(p: string, s: string)
    requires |p| > 1 && |s| > 1 && p[1] != s[1]
    ensures Strip(p, s) == NoRead
  {
  }

  lemma {:induction false} UntilStops(c: char, data: string, rest: string)
    requires c !in data && rest != [] && rest[0] == c
    ensures Until(c, data + rest) == Got(data, rest)
  {
    if data == [] {
      assert data + rest == rest;
    } else {
      UntilStops(c, data[1..], rest);
      assert (data + rest)[1..] == data[1..] + rest;
      assert data == [data[0]] + data[1..];
    }
  }

  lemma ReadsData(stop: char, close: string, text: string, rest: string)
    requires stop == '<' || stop == '"'
    requires close != [] && close[0] == stop
    ensures ReadData(stop, close, XmlEscape(text) + (close + rest)) == Got(text, rest)
  {
    EscapeRoundTrip(text);
    UntilStops(stop, XmlEscape(text), close + rest);
    StripOwnPrefix(close, rest);
  }

  lemma ReadsText(open: string, text: string, rest: string)
    ensures ReadText(open, open + (XmlEscape(text) + (TEXT_CLOSE + rest))) == Got(text, rest)
  {
    StripOwnPrefix(open, XmlEscape(text) + (TEXT_CLOSE + rest));
    ReadsData('<', TEXT_CLOSE, text, rest);
  }

  lemma ReadsSource(shape: ImageShape, path: seq<Byte>, rest: string)
    ensures ReadSource(shape, SRC_OPEN + (XmlEscape(FileUriOf(path)) + (IMAGE_CLOSE + rest)))
         == Got(XmlImage(shape, NormalPath(path)), rest)
  {
    StripOwnPrefix(SRC_OPEN, XmlEscape(FileUriOf(path)) + (IMAGE_CLOSE + rest));
    ReadsData('"', IMAGE_CLOSE, FileUriOf(path), rest);
    StripOwnPrefix(SCHEME, PercentEncode(NormalPath(path)));
    PercentRoundTrip(NormalPath(path));
  }

  lemma RegroupParts(a: string, b: string, c: string, d: string, e: string, rest: string)
    ensures a + b + c + d + e + rest == a + (b + (c + (d + (e + rest))))
  {
  }

  lemma ReadsImage(shape: ImageShape, path: seq<Byte>, rest: string)
    ensures ReadImage(ImageElement(shape, path) + rest) == Got(Some(XmlImage(shape, NormalPath(path))), rest)
  {
    var crop := if shape.Circle? then CROP_CIRCLE else "";
    var source := SRC_OPEN + (XmlEscape(FileUriOf(path)) + (IMAGE_CLOSE + rest));
    RegroupParts(IMAGE_OPEN, crop, SRC_OPEN, XmlEscape(FileUriOf(path)), IMAGE_CLOSE, rest);
    StripOwnPrefix(IMAGE_OPEN, crop + source);
    ReadsSource(shape, path, rest);
    ReadsCrop(shape, source);
  }

  lemma ReadsCrop(shape: ImageShape, source: string)
    requires SRC_OPEN <= source
    ensures shape.Circle? ==> Strip(CROP_CIRCLE, CROP_CIRCLE + source) == Got((), source)
    ensures shape.Square? ==> "" + source == source && Strip(CROP_CIRCLE, source) == NoRead
  {
    StripOwnPrefix(CROP_CIRCLE, source);
    assert source[1] == SRC_OPEN[1] == 's' && CROP_CIRCLE[1] == 'h';
    SecondCharacterDecides(CROP_CIRCLE, source);
  }

  lemma ReadsAction(caption: string, url: string, rest: string)
    ensures ReadAction(ActionElement(caption, url) + rest) == Got(Some(XmlAction(caption, url)), rest)
  {
    var tail := XmlEscape(url) + (ACTION_CLOSE + rest);
    RegroupParts(ACTION_OPEN, XmlEscape(caption), ACTION_MIDDLE, XmlEscape(url), ACTION_CLOSE, rest);
    StripOwnPrefix(ACTION_OPEN, XmlEscape(caption) + (ACTION_MIDDLE + tail));
    ReadsData('"', ACTION_MIDDLE, caption, tail);
    ReadsData('"', ACTION_CLOSE, url, rest);
  }

  // ---------------------------------------------------------------------------
  // Reading back the whole toast, from its last piece to its first

  lemma OptionalImage(lib: Libraries, toast: ToastRequest, imagePath: Option<seq<Byte>>, rest: string)
    requires |rest| > 1 && rest[1] == 't'
    ensures ReadImage(ImagePart(toast, imagePath) + rest) == Got(Visible(lib, toast, imagePath).image, rest)
  {
    if imagePath.Some? && toast.image.Some? {
      ReadsImage(toast.image.value.shape, imagePath.value, rest);
    } else {
      assert ImagePart(toast, imagePath) + rest == rest;
      assert IMAGE_OPEN[1] == 'i';
      SecondCharacterDecides(IMAGE_OPEN, rest);
    }
  }

  lemma OptionalAttribution(toast: ToastRequest, rest: string)
    requires |rest| > 1 && rest[1] == '/'
    ensures ReadAttribution(AttributionPart(toast) + rest) == Got(toast.attribution, rest)
  {
    match toast.attribution
    case Some(a) =>
      RegroupParts(ATTRIBUTION_OPEN, XmlEscape(a), TEXT_CLOSE, "", "", rest);
      assert TEXT_CLOSE + ("" + ("" + rest)) == TEXT_CLOSE + rest;
      assert AttributionPart(toast) + rest == ATTRIBUTION_OPEN + (XmlEscape(a) + (TEXT_CLOSE + rest));
      ReadsText(ATTRIBUTION_OPEN, a, rest);
    case None =>
      assert AttributionPart(toast) + rest == rest;
      assert ATTRIBUTION_OPEN[1] == 't';
      SecondCharacterDecides(ATTRIBUTION_OPEN, rest);
  }

  lemma OptionalAction(lib: Libraries, toast: ToastRequest, imagePath: Option<seq<Byte>>)
    ensures ReadAction(ActionPart(lib, toast) + CLOSE) == Got(Visible(lib, toast, imagePath).action, CLOSE)
  {
    var action := Visible(lib, toast, imagePath).action;
    if action.Some? {
      ReadsAction(action.value.caption, action.value.url, CLOSE);
    } else {
      assert ActionPart(lib, toast) + CLOSE == CLOSE;
      assert ACTION_OPEN[1] == 'a' && CLOSE[1] == '/';
      SecondCharacterDecides(ACTION_OPEN, CLOSE);
    }
  }

  /** The text that follows the image, grouped from the end. */
  function AfterMessage(lib: Libraries, toast: ToastRequest): string {
    AttributionPart(toast) + (MIDDLE + (ActionPart(lib, toast) + CLOSE))
  }

  function AfterTitle(lib: Libraries, toast: ToastRequest): string {
    TEXT_OPEN + (XmlEscape(toast.message) + (TEXT_CLOSE + AfterMessage(lib, toast)))
  }

  function AfterImage(lib: Libraries, toast: ToastRequest): string {
    TEXT_OPEN + (XmlEscape(toast.title) + (TEXT_CLOSE + AfterTitle(lib, toast)))
  }

  lemma BuiltInPieces(lib: Libraries, toast: ToastRequest, imagePath: Option<seq<Byte>>)
    ensures BuildToastXml(lib, toast, imagePath)
         == OPEN + (ImagePart(toast, imagePath) + AfterImage(lib, toast))
  {
    var image, attribution, action := ImagePart(toast, imagePath), AttributionPart(toast), ActionPart(lib, toast);
    var title, message := XmlEscape(toast.title), XmlEscape(toast.message);
    RegroupParts(OPEN + image + TEXT_OPEN + title + TEXT_CLOSE + TEXT_OPEN + message + TEXT_CLOSE,
            attribution, MIDDLE, action, CLOSE, "");
    RegroupParts(OPEN + image + TEXT_OPEN + title + TEXT_CLOSE, TEXT_OPEN, message, TEXT_CLOSE,
            AfterMessage(lib, toast), "");
    RegroupParts(OPEN + image, TEXT_OPEN, title, TEXT_CLOSE, AfterTitle(lib, toast), "");
    RegroupParts(OPEN, image, AfterImage(lib, toast), "", "", "");
    Drop();
  }

  lemma Drop()
    ensures forall s: string :: s + "" == s
  {
  }

  lemma ReadsEnd(lib: Libraries, toast: ToastRequest, imagePath: Option<seq<Byte>>)
    ensures var seen := Visible(lib, toast, imagePath);
      ReadEnd(AfterMessage(lib, toast)) == Some((seen.attribution, seen.action))
  {
    var m := MIDDLE + (ActionPart(lib, toast) + CLOSE);
    assert m[1] == MIDDLE[1] == '/';
    OptionalAttribution(toast, m);
    StripOwnPrefix(MIDDLE, ActionPart(lib, toast) + CLOSE);
    OptionalAction(lib, toast, imagePath);
  }

  /** The reader recovers the visible content of every toast, for every image path and URL validator. */
  lemma ReadBack(lib: Libraries, toast: ToastRequest, imagePath: Option<seq<Byte>>)
    ensures ReadToast(BuildToastXml(lib, toast, imagePath)) == Some(Visible(lib, toast, imagePath))
  {
    var s := AfterImage(lib, toast);
    BuiltInPieces(lib, toast, imagePath);
    StripOwnPrefix(OPEN, ImagePart(toast, imagePath) + s);
    assert s[1] == TEXT_OPEN[1] == 't';
    OptionalImage(lib, toast, imagePath, s);
    ReadsText(TEXT_OPEN, toast.title, AfterTitle(lib, toast));
    ReadsText(TEXT_OPEN, toast.message, AfterMessage(lib, toast));
    ReadsEnd(lib, toast, imagePath);
  }

  /** Toasts with different visible content never produce the same XML. */
  lemma DifferentContentDifferentXml(lib: Libraries, a: ToastRequest, p: Option<seq<Byte>>, b: ToastRequest,
      q: Option<seq<Byte>>)
    requires Visible(lib, a, p) != Visible(lib, b, q)
    ensures BuildToastXml(lib, a, p) != BuildToastXml(lib, b, q)
  {
    ReadBack(lib, a, p);
    ReadBack(lib, b, q);
  }
}
