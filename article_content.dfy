/** The article body: HTML, Markdown or CMS blocks, with relative image
    paths completed against the CMS address, paragraphs holding only an
    image URL shown as that image, and image captions in any of the shapes
    the CMS produces. */
module ArticleContent {
  import opened Wrappers
  import opened Text

  const DefaultStrapiUrl := "http://localhost:1337"

  /** `STRAPI_URL`: the configured address, or the local default. */
  function StrapiUrl(env: Option<string>): (b: string)
    ensures env.Some? && env.value != [] ==> b == env.value
    ensures env.None? || env.value == [] ==> b == DefaultStrapiUrl
  {
    if env.Some? && env.value != [] then env.value else DefaultStrapiUrl
  }

  predicate IsAbsolute(url: string) {
    StartsWith(url, "http://") || StartsWith(url, "https://")
  }

  /** `getImageUrl`: empty stays empty, absolute URLs stay as they are, and a
      path is appended to the base with exactly one slash added when it has none. */
  function GetImageUrl(url: string, base: string): (r: string)
    ensures r == [] <==> url == []
    ensures url != [] && IsAbsolute(url) ==> r == url
    ensures url != [] && !IsAbsolute(url) && StartsWith(url, "/") ==> r == base + url
    ensures url != [] && !IsAbsolute(url) && !StartsWith(url, "/") ==> r == base + "/" + url
  {
    if url == [] then []
    else if IsAbsolute(url) then url
    else base + (if StartsWith(url, "/") then "" else "/") + url
  }

  /** With an absolute base, every completed URL is absolute, so completing
      it again changes nothing. */
  lemma GetImageUrlIdempotent(url: string, base: string)
    requires IsAbsolute(base)
    ensures url != [] ==> IsAbsolute(GetImageUrl(url, base))
    ensures GetImageUrl(GetImageUrl(url, base), base) == GetImageUrl(url, base)
  {
    var r := GetImageUrl(url, base);
    if url != [] && !IsAbsolute(url) {
      if StartsWith(base, "http://") {
        PrefixCarries(base, r, "http://");
      } else {
        PrefixCarries(base, r, "https://");
      }
    }
  }

  lemma PrefixCarries(b: string, s: string, p: string)
    requires |b| <= |s| && s[..|b|] == b && StartsWith(b, p)
    ensures StartsWith(s, p)
  {
    assert s[..|p|] == b[..|p|];
  }

  /** A line terminator, which the regular expression's `.` does not match. */
  predicate IsLineBreak(c: char) {
    c == '\n' || c == '\r' || c == '\U{2028}' || c == '\U{2029}'
  }

  predicate NoLineBreak(s: string) {
    forall i :: 0 <= i < |s| ==> !IsLineBreak(s[i])
  }

  const ImageExtensions: seq<string> := ["jpg", "jpeg", "png", "gif", "webp", "svg"]

  /** `(jpg|…|svg)(\?.*)?$` at the start of `t`. */
  predicate ExtensionThenQuery(t: string) {
    exists e :: e in ImageExtensions && StartsWith(t, e)
      && (|t| == |e| || (t[|e|] == '?' && NoLineBreak(t[|e| + 1..])))
  }

  /** `.+\.(…)(\?.*)?$` after the scheme: some non-empty name, a dot, an extension. */
  predicate NameThenExtension(r: string) {
    exists i :: 1 <= i < |r| && r[i] == '.' && NoLineBreak(r[..i]) && ExtensionThenQuery(r[i + 1..])
  }

  /** The whole pattern `^https?:\/\/.+\.(jpg|jpeg|png|gif|webp|svg)(\?.*)?$`
      on already lower-cased text. */
  predicate ImageUrlPattern(s: string) {
    (StartsWith(s, "http://") && NameThenExtension(s[7..]))
    || (StartsWith(s, "https://") && NameThenExtension(s[8..]))
  }

  /** `isImageUrl`: the pattern, case-insensitively, on the trimmed text. */
  predicate IsImageUrl(text: string) {
    ImageUrlPattern(Lower(Trim(text)))
  }

  /** Surrounding white space never matters. */
  lemma ImageUrlIgnoresSpace(text: string)
    ensures IsImageUrl(Trim(text)) == IsImageUrl(text)
  {
    TrimIdempotent(text);
  }

  /** An accepted text is an http or https address, whatever its case. */
  lemma ImageUrlIsWeb(text: string)
    requires IsImageUrl(text)
    ensures StartsWith(Lower(Trim(text)), "http://") || StartsWith(Lower(Trim(text)), "https://")
  {
  }

  /** Every address built as scheme, name, dot, image extension and an
      optional "?" query, with no line breaks, is accepted. */
  lemma ImageUrlAccepts(scheme: string, name: string, ext: string, query: string)
    requires scheme == "http://" || scheme == "https://"
    requires name != [] && NoLineBreak(name)
    requires ext in ImageExtensions
    requires query == [] || (query[0] == '?' && NoLineBreak(query[1..]))
    ensures ImageUrlPattern(scheme + name + "." + ext + query)
  {
    var r := name + "." + ext + query;
    NameAccepted(name, ext, query);
    SchemeAccepted(scheme, r);
    Regroup(scheme, name, ".", ext, query);
  }

  lemma Regroup(a: string, b: string, c: string, d: string, e: string)
    ensures a + b + c + d + e == a + (b + c + d + e)
  {
  }

  lemma SchemeAccepted(scheme: string, r: string)
    requires scheme == "http://" || scheme == "https://"
    requires NameThenExtension(r)
    ensures ImageUrlPattern(scheme + r)
  {
    Prefixed(scheme, r);
    if scheme == "http://" {
      assert |scheme| == 7;
    } else {
      assert |scheme| == 8;
    }
  }

  lemma Prefixed(p: string, r: string)
    ensures StartsWith(p + r, p) && (p + r)[|p|..] == r
  {
    assert (p + r)[..|p|] == p;
  }

  lemma NameAccepted(name: string, ext: string, tail: string)
    requires name != [] && NoLineBreak(name)
    requires ext in ImageExtensions
    requires tail == [] || (tail[0] == '?' && NoLineBreak(tail[1..]))
    ensures NameThenExtension(name + "." + ext + tail)
  {
    var r := name + "." + ext + tail;
    var i := |name|;
    assert r[i] == '.';
    assert r[..i] == name;
    assert r[i + 1..] == ext + tail;
    ExtensionAccepted(ext, tail);
  }

  lemma ExtensionAccepted(ext: string, tail: string)
    requires ext in ImageExtensions
    requires tail == [] || (tail[0] == '?' && NoLineBreak(tail[1..]))
    ensures ExtensionThenQuery(ext + tail)
  {
    var t := ext + tail;
    assert t[..|ext|] == ext;
    if tail != [] {
      assert t[|ext|] == '?' && t[|ext| + 1..] == tail[1..];
    }
  }

  /** What `children` may hold: a string, an array, a React element with
      `props.text` or `props.children` (an empty string stands for a missing
      text), or anything else. */
  datatype Child =
    | Str(s: string)
    | Arr(items: seq<Child>)
    | Element(text: string, children: Option<Child>)
    | Other

  /** `getTextFromChildren`. */
  function GetTextFromChildren(c: Child): (r: string)
    decreases c, 1
    ensures c.Str? ==> r == c.s
    ensures c.Other? ==> r == []
    ensures c.Element? && c.text != [] ==> r == c.text
    ensures c.Element? && c.text == [] && c.children.None? ==> r == []
  {
    match c
    case Str(s) => s
    case Arr(items) => Concat(seq(|items|, i requires 0 <= i < |items| => ItemText(items[i])))
    case Element(text, children) => ElementText(c)
    case Other => []
  }

  /** `props.text`, else the text of `props.children`. */
  function ElementText(c: Child): string
    requires c.Element?
    decreases c, 0
  {
    if c.text != [] then c.text
    else if c.children.Some? then GetTextFromChildren(c.children.value)
    else []
  }

  /** One array item: an array nested in an array has no `props`, so it gives nothing. */
  function ItemText(c: Child): (r: string)
    decreases c, 2
    ensures !c.Arr? ==> r == GetTextFromChildren(c)
    ensures c.Arr? ==> r == []
  {
    match c
    case Str(s) => s
    case Element(_, _) => ElementText(c)
    case _ => []
  }

  function ItemTexts(items: seq<Child>): (r: seq<string>)
    ensures |r| == |items| && forall i :: 0 <= i < |items| ==> r[i] == ItemText(items[i])
  {
    seq(|items|, i requires 0 <= i < |items| => ItemText(items[i]))
  }

  /** An array's text is its items' texts one after another. */
  lemma ArrayTextAppend(a: seq<Child>, b: seq<Child>)
    ensures GetTextFromChildren(Arr(a + b)) == GetTextFromChildren(Arr(a)) + GetTextFromChildren(Arr(b))
  {
    assert GetTextFromChildren(Arr(a + b)) == Concat(ItemTexts(a + b));
    assert GetTextFromChildren(Arr(a)) == Concat(ItemTexts(a));
    assert GetTextFromChildren(Arr(b)) == Concat(ItemTexts(b));
    assert ItemTexts(a + b) == ItemTexts(a) + ItemTexts(b);
    ConcatAppend(ItemTexts(a), ItemTexts(b));
  }

  lemma {:induction false} ConcatAppend(x: seq<string>, y: seq<string>)
    ensures Concat(x + y) == Concat(x) + Concat(y)
  {
    if x != [] {
      assert (x + y)[1..] == x[1..] + y;
      ConcatAppend(x[1..], y);
    } else {
      assert x + y == y;
    }
  }

  /** An array of one child reads like the child itself, unless that child is an array. */
  lemma SingleItemArray(c: Child)
    ensures GetTextFromChildren(Arr([c])) == if c.Arr? then [] else GetTextFromChildren(c)
  {
    assert ItemTexts([c]) == [ItemText(c)];
    assert Concat([ItemText(c)]) == ItemText(c) + Concat([]);
  }

  /** An image caption as the CMS may send it. */
  datatype Caption =
    | CaptionString(s: string)
    | CaptionArray(items: seq<CaptionItem>)
    | CaptionObject(text: Option<string>)
    | NoCaption

  /** An item of an array caption: a text block (whose `text` may be
      missing), a plain string, or anything else. */
  datatype CaptionItem = TextBlock(text: Option<string>) | PlainString(s: string) | OtherItem

  function CaptionItemText(item: CaptionItem): (r: string)
    ensures item.OtherItem? ==> r == []
  {
    match item
    case TextBlock(t) => if t.Some? then t.value else []
    case PlainString(s) => s
    case OtherItem => []
  }

  function CaptionItemTexts(items: seq<CaptionItem>): (r: seq<string>)
    ensures |r| == |items| && forall i :: 0 <= i < |items| ==> r[i] == CaptionItemText(items[i])
  {
    if items == [] then [] else [CaptionItemText(items[0])] + CaptionItemTexts(items[1..])
  }

  /** The caption's text: the string itself, the joined texts of an array,
      an object's non-empty text, and otherwise nothing. */
  function CaptionText(c: Caption): (r: string)
    ensures c.CaptionString? ==> r == c.s
    ensures c.NoCaption? ==> r == []
    ensures c.CaptionObject? ==> r == (if c.text.Some? then c.text.value else [])
    ensures c.CaptionArray? ==> r == Concat(CaptionItemTexts(c.items))
  {
    match c
    case CaptionString(s) => s
    case CaptionArray(items) => Concat(CaptionItemTexts(items))
    case CaptionObject(t) => if t.Some? && t.value != [] then t.value else []
    case NoCaption => []
  }

  /** Items that are neither text blocks nor strings add nothing: an array
      of only such items gives no caption. */
  lemma {:induction false} CaptionIgnoresOtherItems(items: seq<CaptionItem>)
    requires forall i :: 0 <= i < |items| ==> items[i].OtherItem?
    ensures CaptionText(CaptionArray(items)) == []
  {
    if items != [] {
      CaptionIgnoresOtherItems(items[1..]);
      assert CaptionItemTexts(items) == [CaptionItemText(items[0])] + CaptionItemTexts(items[1..]);
    }
  }

  /** The CMS blocks the renderer overrides. */
  datatype Block =
    | Heading(level: int, children: Child)
    | Paragraph(children: Child)
    | ListBlock(format: string, children: Child)
    | ListItem(children: Child)
    | Link(url: string, children: Child)
    | Quote(children: Child)
    | Code(children: Child)
    | ImageBlock(url: string, alternativeText: Option<string>, caption: Caption)

  /** What each block becomes. */
  datatype View =
    | HeadingView(level: int, fontSize: Option<int>)
    | ImageView(src: string, alt: string)
    | ParagraphView
    | ListView(ordered: bool)
    | ListItemView
    | LinkView(href: string)
    | QuoteView
    | CodeView
    | FigureView(src: string, alt: string, caption: Option<string>)

  /** The font size of each heading level; other levels get no size. */
  function HeadingFontSize(level: int): (size: Option<int>)
    ensures size.Some? <==> 1 <= level <= 6
  {
    if level == 1 then Some(52)
    else if level == 2 then Some(24)
    else if level == 3 then Some(20)
    else if level == 4 then Some(18)
    else if level == 5 then Some(16)
    else if level == 6 then Some(14)
    else None
  }

  /** Each heading level is drawn smaller than the one above it. */
  lemma HeadingSizesShrink(level: int)
    requires 1 <= level < 6
    ensures HeadingFontSize(level + 1).value < HeadingFontSize(level).value
  {
  }

  /** A paragraph (Markdown or block) whose whole text is an image URL
      becomes that image, trimmed; any other stays a paragraph. */
  function ParagraphOf(children: Child): (v: View)
    ensures v.ImageView? <==> IsImageUrl(GetTextFromChildren(children))
    ensures v.ImageView? ==> v.src == Trim(GetTextFromChildren(children)) && v.alt == "Image from URL"
    ensures !v.ImageView? ==> v == ParagraphView
  {
    var text := GetTextFromChildren(children);
    if IsImageUrl(text) then ImageView(Trim(text), "Image from URL") else ParagraphView
  }

  function BlockView(b: Block, base: string): (v: View)
    ensures b.Heading? ==> v == HeadingView(b.level, HeadingFontSize(b.level))
    ensures b.Paragraph? ==> v == ParagraphOf(b.children)
    ensures b.ListBlock? ==> v == ListView(b.format == "ordered")
    ensures b.Link? ==> v == LinkView(b.url)
    ensures b.ImageBlock? ==> v.FigureView? && v.src == GetImageUrl(b.url, base)
    ensures b.ImageBlock? ==> (v.caption.Some? <==> CaptionText(b.caption) != [])
    ensures b.ImageBlock? ==> v.alt == (if b.alternativeText.Some? then b.alternativeText.value else [])
  {
    match b
    case Heading(level, _) => HeadingView(level, HeadingFontSize(level))
    case Paragraph(children) => ParagraphOf(children)
    case ListBlock(format, _) => ListView(format == "ordered")
    case ListItem(_) => ListItemView
    case Link(url, _) => LinkView(url)
    case Quote(_) => QuoteView
    case Code(_) => CodeView
    case ImageBlock(url, alt, caption) =>
      var text := CaptionText(caption);
      FigureView(GetImageUrl(url, base),
                 if alt.Some? then alt.value else [],
                 if text != [] then Some(text) else None)
  }

  /** `/<[^>]+>/`: a "<", at least one character other than ">", then ">". */
  predicate HasTag(s: string) {
    exists i, j :: 0 <= i && i + 1 < j < |s| && s[i] == '<' && s[j] == '>'
      && forall k :: i < k < j ==> s[k] != '>'
  }

  /** What `content` may be: a string (HTML or Markdown) or anything else,
      which is handed to the blocks renderer. */
  datatype Content = StringContent(s: string) | BlockContent(blocks: seq<Block>)

  datatype Rendering = RawHtml(html: string) | Markdown(source: string) | BlocksView(views: seq<View>)

  /** The three ways of rendering the body. */
  function Render(content: Content, env: Option<string>): (r: Rendering)
    ensures content.StringContent? && HasTag(content.s) ==> r == RawHtml(content.s)
    ensures content.StringContent? && !HasTag(content.s) ==> r == Markdown(content.s)
    ensures content.BlockContent? ==> r.BlocksView? && |r.views| == |content.blocks|
    ensures content.BlockContent? ==>
      forall i :: 0 <= i < |content.blocks| ==> r.views[i] == BlockView(content.blocks[i], StrapiUrl(env))
  {
    match content
    case StringContent(s) => if HasTag(s) then RawHtml(s) else Markdown(s)
    case BlockContent(blocks) =>
      BlocksView(seq(|blocks|, i requires 0 <= i < |blocks| => BlockView(blocks[i], StrapiUrl(env))))
  }

  /** Text without a "<" is never taken for HTML; a lone tag always is. */
  lemma TagDetection(s: string, name: string)
    requires name != [] && '>' !in name
    ensures '<' !in s ==> !HasTag(s)
    ensures HasTag("<" + name + ">")
  {
    if HasTag(s) {
      var i, j :| 0 <= i && i + 1 < j < |s| && s[i] == '<' && s[j] == '>'
        && forall k :: i < k < j ==> s[k] != '>';
      assert '<' in s;
    }
    var t := "<" + name + ">";
    assert forall k :: 0 < k < |t| - 1 ==> t[k] == name[k - 1];
    assert 0 + 1 < |t| - 1 && t[0] == '<' && t[|t| - 1] == '>';
  }
}
