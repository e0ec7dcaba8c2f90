/** Badge rendering: the per-character width estimate, the badge rectangles and
    text anchors (Badger), and the composition of a face picture with a badge
    under one enlarged canvas (AvatarAdorner).

    An SVG document is a value tree of `Node`s. Attribute values are either
    literal text or numbers together with the way the source formats them. */
module Avatar {
  import opened Wrappers
  import opened Text

  const BadgeH: int := 50
  const BadgeOff: int := 10

  const SvgNs: string := "{http://www.w3.org/2000/svg}"
  const XlinkHref: string := "{http://www.w3.org/1999/xlink}href"
  const Base64Header: string := "data:image/jpeg;base64,"
  const SourcererOrigin: string := "https://sourcerer.io"

  /** What ElementTree writes for an attribute. */
  datatype Value =
    | Text(s: string)       // literal text
    | Num(r: real)          // a number substituted by str.format into a template
    | Fixed(r: real)        // a number written with '%.02f'
    | Box(w: real, h: real) // '0 0 %.02f %.02f', a viewBox at the origin

  datatype Node = Node(tag: string, attrs: map<string, Value>, text: string, children: seq<Node>)

  datatype AvatarError =
    | InvalidBadgeLabel(labelText: string)   // raised by make_badge and by adorn
    | MissingSymbol(s: string)           // KeyError from the symbol table
    | NoFaceImage                        // no <image> child: face_image is None
    | NoFaceHref                         // the <image> has no textual href
    | NoViewBox                          // 'No viewBox found'
    | BadViewBox(box: string)            // ValueError while unpacking or parsing

  /** External collaborators of the renderer: fetching and parsing a remote SVG,
      fetching raw image bytes, and base64 encoding. */
  datatype Services = Services(
    fetchSvg: string -> Node,
    fetchBytes: string -> seq<bv8>,
    base64: seq<bv8> -> string)

  // ---------------------------------------------------------------- labels

  datatype Label = Trending | New | Top

  function LabelName(l: Label): string {
    match l
    case Trending => "trending"
    case New => "new"
    case Top => "top"
  }

  /** `label in [TRENDING, NEW, TOP]`, returning which one. */
  function ParseLabel(s: string): (r: Option<Label>)
    ensures r.Some? ==> LabelName(r.value) == s
    ensures r.None? ==> forall l: Label :: LabelName(l) != s
  {
    if s == "trending" then Some(Trending)
    else if s == "new" then Some(New)
    else if s == "top" then Some(Top)
    else None
  }

  function BadgeColor(l: Label): string {
    match l
    case New => "#4CB04F"
    case Trending => "#2B95CF"
    case Top => "#F28F56"
  }

  // ---------------------------------------------------------------- widths

  /** The symbol table: 20 units for space, digits and lower-case letters, then
      overridden to 9 for f, j, t, to 5 for i, l and to 30 for m, w. The source
      builds it as a dict in that order; here the later overrides are checked first. */
  function SymbolWidth(c: char): Option<int> {
    if c == 'f' || c == 'j' || c == 't' then Some(9)
    else if c == 'i' || c == 'l' then Some(5)
    else if c == 'm' || c == 'w' then Some(30)
    else if c == ' ' || IsDigit(c) || 'a' <= c <= 'z' then Some(20)
    else None
  }

  predicate Measurable(s: string) {
    forall i :: 0 <= i < |s| ==> SymbolWidth(s[i]).Some?
  }

  function TotalWidth(s: string): int
    requires Measurable(s)
  {
    if s == [] then 0 else TotalWidth(s[..|s| - 1]) + SymbolWidth(s[|s| - 1]).value
  }

  /** `_estimate_string_size`: the sum of the symbol widths plus 20; None where a
      character outside the table raises KeyError. */
  function EstimateStringSize(s: string): (r: Option<int>)
    ensures r.Some? <==> Measurable(s)
  {
    if Measurable(s) then Some(TotalWidth(s) + 20) else None
  }

  lemma {:induction false} TotalWidthAppend(a: string, b: string)
    requires Measurable(a) && Measurable(b)
    ensures Measurable(a + b)
    ensures TotalWidth(a + b) == TotalWidth(a) + TotalWidth(b)
  {
    if b != [] {
      assert (a + b)[..|a + b| - 1] == a + b[..|b| - 1];
      TotalWidthAppend(a, b[..|b| - 1]);
    } else {
      assert a + b == a;
    }
  }

  /** Every character costs between 5 and 30 units. */
  lemma {:induction false} TotalWidthBounds(s: string)
    requires Measurable(s)
    ensures 5 * |s| <= TotalWidth(s) <= 30 * |s|
  {
    if s != [] {
      TotalWidthBounds(s[..|s| - 1]);
    }
  }

  /** Every label can be measured, and a count can exactly when it is not
      negative: str() of a negative number starts with '-', which is not in the table. */
  lemma MeasurableBadgeTexts(l: Label, count: int)
    ensures Measurable(LabelName(l))
    ensures Measurable(IntToString(count)) <==> count >= 0
  {
    var s := IntToString(count);
    if count < 0 {
      assert s[0] == '-';
    }
  }

  // ---------------------------------------------------------------- badge

  datatype BadgeSize = BadgeSize(labelW: int, valueW: int, badgeW: int, badgeH: int)

  /** `_estimate_badge_size`: the label part and the value part side by side. */
  function EstimateBadgeSize(labelText: string, value: string): (r: Result<BadgeSize, AvatarError>)
    ensures r.Ok? <==> Measurable(labelText) && Measurable(value)
    ensures r.Ok? ==> r.value.badgeW == r.value.labelW + r.value.valueW && r.value.badgeH == BadgeH
    ensures r.Ok? ==> (Some(r.value.labelW) == EstimateStringSize(labelText)
                       && Some(r.value.valueW) == EstimateStringSize(value))
  {
    match EstimateStringSize(labelText)
    case None => Err(MissingSymbol(labelText))
    case Some(lw) =>
      match EstimateStringSize(value)
      case None => Err(MissingSymbol(value))
      case Some(vw) => Ok(BadgeSize(lw, vw, lw + vw, BadgeH))
  }

  lemma TotalWidthOfThree(s: string)
    requires |s| == 3 && Measurable(s)
    ensures TotalWidth(s) == SymbolWidth(s[0]).value + SymbolWidth(s[1]).value + SymbolWidth(s[2]).value
  {
    assert s[..2][..1][..1 - 1] == [];
    assert s[..2][..1] == [s[0]] && s[..2][1] == s[1] && s[..3 - 1] == s[..2];
    assert TotalWidth(s[..1]) == SymbolWidth(s[0]).value;
    assert TotalWidth(s[..2]) == TotalWidth(s[..1]) + SymbolWidth(s[1]).value;
  }

  /** For example, "top" with 128 commits is 69 + 80 = 149 wide. */
  lemma TopBadgeWidth()
    ensures EstimateBadgeSize("top", IntToString(128)) == Ok(BadgeSize(69, 80, 149, 50))
  {
    assert IntToString(128) == "128";
    TotalWidthOfThree("top");
    TotalWidthOfThree("128");
  }

  /** The SVG_BADGE template filled in: a clipped grey label rectangle, the value
      rectangle in the label's colour right of it, and the two centred texts. */
  function BadgeTemplate(labelText: string, value: string, color: string, sz: BadgeSize): Node {
    var bw := sz.badgeW as real;
    var bh := sz.badgeH as real;
    var lw := sz.labelW as real;
    var vw := sz.valueW as real;
    Node(SvgNs + "svg", map["version" := Text("1.1")], "", [
      Node(SvgNs + "defs", map[], "", [
        Node(SvgNs + "clipPath", map["id" := Text("badge-clip")], "", [
          Node(SvgNs + "rect", map["width" := Num(bw), "height" := Num(bh), "rx" := Text("5")], "", [])])]),
      Node(SvgNs + "g", map["clip-path" := Text("url(#badge-clip)")], "", [
        Node(SvgNs + "rect", map["width" := Num(lw), "height" := Text("100%"), "fill" := Text("#777777")], "", []),
        Node(SvgNs + "rect", map["x" := Num(lw), "width" := Num(vw), "height" := Text("100%"),
                                 "fill" := Text(color)], "", [])]),
      Node(SvgNs + "g", map["text-anchor" := Text("middle"), "font-size" := Text("34"), "fill" := Text("#ffffff"),
                            "font-family" := Text("Roboto,DejaVu Sans,Verdana,Geneva,sans-serif")], "", [
        Node(SvgNs + "text", map["x" := Num(lw / 2.0), "y" := Num(bh - 13.0)], labelText, []),
        Node(SvgNs + "text", map["x" := Num(bw - vw / 2.0), "y" := Num(bh - 13.0)], value, [])])])
  }

  /** Badger._make_badge: the template with its outer width, height and viewBox set. */
  function BadgeSvg(labelText: string, value: string, color: string, sz: BadgeSize): Node {
    var t := BadgeTemplate(labelText, value, color, sz);
    t.(attrs := t.attrs["width" := Fixed(sz.badgeW as real)]["height" := Fixed(sz.badgeH as real)]
                       ["viewBox" := Box(sz.badgeW as real, sz.badgeH as real)])
  }

  /** Where the badge geometry puts things: each text is horizontally centred on
      its rectangle, the value rectangle starts where the label rectangle ends,
      and both baselines sit 13 units above the bottom edge. */
  lemma BadgeGeometry(labelText: string, value: string, color: string, sz: BadgeSize)
    requires sz.badgeW == sz.labelW + sz.valueW
    ensures var b := BadgeSvg(labelText, value, color, sz);
      var labelRect := b.children[1].children[0];
      var valueRect := b.children[1].children[1];
      var labelNode := b.children[2].children[0];
      var valueNode := b.children[2].children[1];
      && labelNode.text == labelText && valueNode.text == value
      && labelRect.attrs["width"] == Num(sz.labelW as real)
      && valueRect.attrs["x"] == Num(sz.labelW as real)
      && valueRect.attrs["width"] == Num(sz.valueW as real)
      && valueRect.attrs["fill"] == Text(color)
      && labelNode.attrs["x"] == Num(labelRect.attrs["width"].r / 2.0)
      && valueNode.attrs["x"] == Num(valueRect.attrs["x"].r + valueRect.attrs["width"].r / 2.0)
      && labelNode.attrs["y"] == valueNode.attrs["y"] == Num(sz.badgeH as real - 13.0)
      && b.attrs["viewBox"] == Box(sz.badgeW as real, sz.badgeH as real)
  {
  }

  /** Badger: makes the badge for one label and count. */
  class Badger {
    const badgeOff: int := BadgeOff
    var svg: Option<Node>
    var labelText: string
    var value: string
    var valueColor: string
    var badgeW: int
    var badgeH: int
    var labelW: int
    var valueW: int

    constructor ()
      ensures badgeOff == BadgeOff
      ensures svg == None && labelText == "" && value == "" && valueColor == ""
      ensures badgeW == 0 && badgeH == 0 && labelW == 0 && valueW == 0
    {
      svg := None;
      labelText, value, valueColor := "", "", "";
      badgeW, badgeH := 0, 0;
      labelW, valueW := 0, 0;
    }

    /** make_badge: rejects an unknown label; otherwise records the texts and the
        colour, measures them and builds the badge. A negative count fails while
        measuring, after label_w has been set. */
    method MakeBadge(labelText: string, count: int) returns (o: Outcome<AvatarError>)
      modifies this
      ensures ParseLabel(labelText).None? ==> o == Fail(InvalidBadgeLabel(labelText)) && unchanged(this)
      ensures ParseLabel(labelText).Some? ==>
        && this.labelText == labelText && value == IntToString(count)
        && valueColor == BadgeColor(ParseLabel(labelText).value)
        && Some(labelW) == EstimateStringSize(labelText)
        && match EstimateBadgeSize(labelText, IntToString(count))
           case Err(e) =>
             o == Fail(e) && count < 0
             && valueW == old(valueW) && badgeW == old(badgeW) && badgeH == old(badgeH) && svg == old(svg)
           case Ok(sz) =>
             o == Pass && count >= 0
             && labelW == sz.labelW && valueW == sz.valueW && badgeW == sz.badgeW && badgeH == sz.badgeH
             && svg == Some(BadgeSvg(labelText, value, valueColor, sz))
    {
      var l := ParseLabel(labelText);
      if l.None? {
        return Fail(InvalidBadgeLabel(labelText));
      }
      this.labelText := labelText;
      value := IntToString(count);
      valueColor := BadgeColor(l.value);
      MeasurableBadgeTexts(l.value, count);
      o := EstimateSizes();
      if o.Fail? {
        return;
      }
      BuildSvg();
    }

    /** _estimate_badge_size: label_w, then value_w, then the badge size; a
        character outside the symbol table stops it where it occurs. */
    method EstimateSizes() returns (o: Outcome<AvatarError>)
      modifies this`labelW, this`valueW, this`badgeW, this`badgeH
      ensures EstimateStringSize(labelText).None? ==> labelW == old(labelW)
      ensures EstimateStringSize(labelText).Some? ==> Some(labelW) == EstimateStringSize(labelText)
      ensures match EstimateBadgeSize(labelText, value)
        case Err(e) => o == Fail(e) && valueW == old(valueW) && badgeW == old(badgeW) && badgeH == old(badgeH)
        case Ok(sz) => o == Pass && labelW == sz.labelW && valueW == sz.valueW && badgeW == sz.badgeW && badgeH == sz.badgeH
    {
      var lw := EstimateStringSize(labelText);
      if lw.None? {
        return Fail(MissingSymbol(labelText));
      }
      labelW := lw.value;
      var vw := EstimateStringSize(value);
      if vw.None? {
        return Fail(MissingSymbol(value));
      }
      valueW := vw.value;
      badgeW := labelW + valueW;
      badgeH := BadgeH;
      o := Pass;
    }

    /** Badger._make_badge: the filled template with its outer size set. */
    method BuildSvg()
      modifies this`svg
      ensures svg == Some(BadgeSvg(labelText, value, valueColor, BadgeSize(labelW, valueW, badgeW, badgeH)))
    {
      svg := Some(BadgeSvg(labelText, value, valueColor, BadgeSize(labelW, valueW, badgeW, badgeH)));
    }
  }

  // ---------------------------------------------------------------- face

  /** The SVG_GITHUB template: a circular crop of a 200 x 200 picture. */
  function GithubTemplate(): Node {
    Node(SvgNs + "svg", map["version" := Text("1.1"), "viewBox" := Text(GithubViewBox)], "",
         [GithubClip(), GithubImage(), GithubRing()])
  }

  const GithubViewBox: string := "0 0 200 200"

  function GithubClip(): Node {
    Node(SvgNs + "defs", map[], "", [
      Node(SvgNs + "clipPath", map["id" := Text("circle-clip")], "", [
        Node(SvgNs + "circle", map["cx" := Text("100"), "cy" := Text("100"), "r" := Text("85")], "", [])])])
  }

  function GithubImage(): Node {
    Node(SvgNs + "image", map["clip-path" := Text("url(#circle-clip)"), "width" := Text("200"),
                              "height" := Text("200"), XlinkHref := Text("")], "", [])
  }

  function GithubRing(): Node {
    Node(SvgNs + "circle", map["cx" := Text("100"), "cy" := Text("100"), "r" := Text("95"),
                               "stroke" := Text("#c1c5ca"), "stroke-width" := Text("1.5"),
                               "fill" := Text("transparent")], "", [])
  }

  /** `find('svg:image')`: the position of the first child with the given tag. */
  function FirstChildWithTag(children: seq<Node>, tag: string): (r: Option<nat>)
    ensures r.Some? ==> r.value < |children| && children[r.value].tag == tag
                        && forall j :: 0 <= j < r.value ==> children[j].tag != tag
    ensures r.None? ==> forall j :: 0 <= j < |children| ==> children[j].tag != tag
  {
    if children == [] then None
    else if children[0].tag == tag then Some(0)
    else match FirstChildWithTag(children[1..], tag)
      case None => None
      case Some(k) => Some(k + 1)
  }

  function SetAttr(n: Node, key: string, v: Value): Node {
    n.(attrs := n.attrs[key := v])
  }

  function SetChildAttr(n: Node, i: nat, key: string, v: Value): Node
    requires i < |n.children|
  {
    n.(children := n.children[i := SetAttr(n.children[i], key, v)])
  }

  /** The URL `_embed_face` fetches for an href that is not yet inlined: a
      relative path is taken relative to the Sourcerer site. */
  function FaceFetchUrl(href: string): (r: string)
    ensures StartsWith(r, "http")
    ensures StartsWith(href, "http") ==> r == href
    ensures !StartsWith(href, "http") ==> r == SourcererOrigin + href
  {
    if StartsWith(href, "http") then href
    else
      assert (SourcererOrigin + href)[..4] == "http";
      SourcererOrigin + href
  }

  function FaceHref(svg: Node, faceImage: Option<nat>): Result<string, AvatarError> {
    if faceImage.None? || faceImage.value >= |svg.children| then Err(NoFaceImage)
    else
      var attrs := svg.children[faceImage.value].attrs;
      if XlinkHref in attrs && attrs[XlinkHref].Text? then Ok(attrs[XlinkHref].s)
      else Err(NoFaceHref)
  }

  /** `_embed_face`: an href that already holds inline JPEG data is left alone;
      otherwise the picture is fetched and inlined as base64 data. */
  function EmbeddedFace(svg: Node, faceImage: Option<nat>, svc: Services): (r: Result<Node, AvatarError>)
    ensures r.Ok? ==> faceImage.Some? && faceImage.value < |svg.children| == |r.value.children|
    ensures r.Ok? ==> r.value.attrs == svg.attrs
  {
    match FaceHref(svg, faceImage)
    case Err(e) => Err(e)
    case Ok(href) =>
      if StartsWith(href, Base64Header) then Ok(svg)
      else
        var data := Base64Header + svc.base64(svc.fetchBytes(FaceFetchUrl(href)));
        Ok(SetChildAttr(svg, faceImage.value, XlinkHref, Text(data)))
  }

  /** After embedding, the face picture is always inline base64 data, and inlined
      data is never fetched again. */
  lemma EmbeddedFaceIsInline(svg: Node, faceImage: Option<nat>, svc: Services)
    requires EmbeddedFace(svg, faceImage, svc).Ok?
    ensures FaceHref(EmbeddedFace(svg, faceImage, svc).value, faceImage).Ok?
    ensures StartsWith(FaceHref(EmbeddedFace(svg, faceImage, svc).value, faceImage).value, Base64Header)
    ensures StartsWith(FaceHref(svg, faceImage).value, Base64Header) ==> EmbeddedFace(svg, faceImage, svc).value == svg
  {
    var href := FaceHref(svg, faceImage).value;
    if !StartsWith(href, Base64Header) {
      var data := Base64Header + svc.base64(svc.fetchBytes(FaceFetchUrl(href)));
      assert data[..|Base64Header|] == Base64Header;
    }
  }

  /** `_init_sizes`: the third and fourth space-separated fields of the viewBox. */
  function ViewBoxSize(svg: Node): (r: Result<(real, real), AvatarError>)
    ensures "viewBox" !in svg.attrs ==> r == Err(NoViewBox)
  {
    if "viewBox" !in svg.attrs then Err(NoViewBox)
    else match svg.attrs["viewBox"]
      case Box(w, h) => Ok((w, h))
      case Num(x) => Err(BadViewBox(""))
      case Fixed(x) => Err(BadViewBox(""))
      case Text(s) =>
        if s == "" then Err(NoViewBox)
        else
          var fields := Split(s, ' ');
          if |fields| != 4 then Err(BadViewBox(s))
          else
            var x, y, w, h := ParseFloat(fields[0]), ParseFloat(fields[1]), ParseFloat(fields[2]), ParseFloat(fields[3]);
            if x.None? || y.None? || w.None? || h.None? then Err(BadViewBox(s))
            else Ok((w.value, h.value))
  }

  lemma GithubViewBoxFields()
    ensures Split(GithubViewBox, ' ') == ["0", "0", "200", "200"]
  {
    var f := ["0", "0", "200", "200"];
    assert Join(f, [' ']) == GithubViewBox;
    SplitJoin(f, ' ');
  }

  lemma ParseGithubSizes()
    ensures ParseFloat("0") == Some(0.0) && ParseFloat("200") == Some(200.0)
  {
    assert NatToString(0) == "0";
    assert NatToString(200) == "200";
    ParseFloatOfNat(0);
    ParseFloatOfNat(200);
  }

  /** The fields of the GitHub viewBox are four numbers, the last two 200. */
  lemma GithubViewBoxNumbers()
    ensures var f := Split(GithubViewBox, ' ');
      && |f| == 4 && ParseFloat(f[0]).Some? && ParseFloat(f[1]).Some?
      && ParseFloat(f[2]) == Some(200.0) && ParseFloat(f[3]) == Some(200.0)
  {
    GithubViewBoxFields();
    ParseGithubSizes();
    SquareFields(Split(GithubViewBox, ' '), "0", "200", 200.0);
  }

  lemma SquareFields(f: seq<string>, a: string, b: string, w: real)
    requires f == [a, a, b, b] && ParseFloat(a).Some? && ParseFloat(b) == Some(w)
    ensures |f| == 4 && ParseFloat(f[0]).Some? && ParseFloat(f[1]).Some?
      && ParseFloat(f[2]) == Some(w) && ParseFloat(f[3]) == Some(w)
  {
  }

  /** A textual viewBox of four numbers gives its third and fourth. */
  lemma ViewBoxOfFields(n: Node, s: string, w: real, h: real)
    requires "viewBox" in n.attrs && n.attrs["viewBox"] == Text(s) && s != ""
    requires var f := Split(s, ' ');
      && |f| == 4 && ParseFloat(f[0]).Some? && ParseFloat(f[1]).Some?
      && ParseFloat(f[2]) == Some(w) && ParseFloat(f[3]) == Some(h)
    ensures ViewBoxSize(n) == Ok((w, h))
  {
  }

  lemma ViewBox200(n: Node)
    requires "viewBox" in n.attrs && n.attrs["viewBox"] == Text(GithubViewBox)
    ensures ViewBoxSize(n) == Ok((200.0, 200.0))
  {
    GithubViewBoxNumbers();
    ViewBoxOfFields(n, GithubViewBox, 200.0, 200.0);
  }

  /** The GitHub template is 200 x 200 and its picture is its second child. */
  lemma GithubTemplateFace()
    ensures ViewBoxSize(GithubTemplate()) == Ok((200.0, 200.0))
    ensures FirstChildWithTag(GithubTemplate().children, SvgNs + "image") == Some(1)
  {
    var t := GithubTemplate();
    assert t.attrs["viewBox"] == Text(GithubViewBox);
    ViewBox200(t);
    GithubImageIsSecond();
  }

  lemma GithubImageIsSecond()
    ensures FirstChildWithTag([GithubClip(), GithubImage(), GithubRing()], SvgNs + "image") == Some(1)
  {
    var cs := [GithubClip(), GithubImage(), GithubRing()];
    assert |cs[0].tag| != |SvgNs + "image"|;
    assert cs[1..][0] == GithubImage();
  }

  /** `_nest_svg`: all original children, in order, under one nested <svg> of the
      face's size, which becomes the only child. */
  function Nested(svg: Node, faceW: real, faceH: real): Node {
    svg.(children := [Node("svg", map["width" := Fixed(faceW), "height" := Fixed(faceH)], "", svg.children)])
  }

  /** Where `_make_badge` puts the face and the badge on the enlarged canvas. */
  datatype Placement = Placement(canvasW: real, canvasH: real, faceX: Option<real>, badgeX: Option<real>, badgeY: real)

  function Layout(faceW: real, faceH: real, badgeW: real, badgeH: real, badgeOff: real): (p: Placement)
    ensures p.canvasH == faceH + badgeH + badgeOff
    ensures p.canvasW == (if badgeW > faceW then badgeW else faceW)
    ensures p.canvasW >= faceW && p.canvasW >= badgeW
    ensures p.faceX.Some? != p.badgeX.Some?
    ensures p.faceX.GetOr(0.0) + faceW / 2.0 == p.canvasW / 2.0
    ensures p.badgeX.GetOr(0.0) + badgeW / 2.0 == p.canvasW / 2.0
    ensures p.faceX.GetOr(0.0) >= 0.0 && p.badgeX.GetOr(0.0) >= 0.0
    ensures p.badgeY == faceH + badgeOff
  {
    if badgeW > faceW then Placement(badgeW, faceH + badgeH + badgeOff, Some((badgeW - faceW) / 2.0), None, faceH + badgeOff)
    else Placement(faceW, faceH + badgeH + badgeOff, None, Some((faceW - badgeW) / 2.0), faceH + badgeOff)
  }

  /** AvatarAdorner._make_badge on a nested face: the badge appended as the last
      child and both positioned by `Layout`. */
  function WithBadge(nested: Node, badge: Node, faceW: real, faceH: real, badgeW: int, badgeH: int): (r: Node)
    requires |nested.children| == 1
    ensures |r.children| == 2
  {
    var p := Layout(faceW, faceH, badgeW as real, badgeH as real, BadgeOff as real);
    var face := nested.children[0];
    var face' := if p.faceX.Some? then SetAttr(face, "x", Fixed(p.faceX.value)) else face;
    var badge' := if p.badgeX.Some? then SetAttr(badge, "x", Fixed(p.badgeX.value)) else badge;
    var badge'' := SetAttr(badge', "y", Fixed(p.badgeY));
    nested.(attrs := nested.attrs["viewBox" := Box(p.canvasW, p.canvasH)], children := [face', badge''])
  }

  /** The steps of AvatarAdorner._make_badge, one attribute at a time, build
      `WithBadge`. */
  lemma WithBadgeSteps(nested: Node, b: Node, faceW: real, faceH: real, bw: int, bh: int)
    requires |nested.children| == 1
    ensures var p := Layout(faceW, faceH, bw as real, bh as real, BadgeOff as real);
      var appended := nested.(children := nested.children + [b]);
      var moved := if p.faceX.Some? then SetChildAttr(appended, 0, "x", Fixed(p.faceX.value))
                   else SetChildAttr(appended, 1, "x", Fixed(p.badgeX.value));
      SetChildAttr(SetAttr(moved, "viewBox", Box(p.canvasW, p.canvasH)), 1, "y", Fixed(p.badgeY))
        == WithBadge(nested, b, faceW, faceH, bw, bh)
  {
    var face := nested.children[0];
    assert nested.children + [b] == [face, b];
  }

  /** AvatarAdorner._make_badge as a value: the badge for the label and count
      placed under the nested face, or the error measuring it raises. */
  function Badged(nested: Node, l: Label, badge: string, count: int, faceW: real, faceH: real): Result<Node, AvatarError>
    requires |nested.children| == 1
  {
    match EstimateBadgeSize(badge, IntToString(count))
    case Err(e) => Err(e)
    case Ok(sz) =>
      Ok(WithBadge(nested, BadgeSvg(badge, IntToString(count), BadgeColor(l), sz), faceW, faceH, sz.badgeW, sz.badgeH))
  }

  /** `adorn` after the face is embedded: measure, nest, add the badge. */
  function Sized(embedded: Node, l: Label, badge: string, count: int): Result<Node, AvatarError> {
    match ViewBoxSize(embedded)
    case Err(e) => Err(e)
    case Ok(size) => Badged(Nested(embedded, size.0, size.1), l, badge, count, size.0, size.1)
  }

  /** `adorn` as a whole, from the document the adorner was initialised with. */
  function Adorned(svg: Node, faceImage: Option<nat>, badge: string, count: int, svc: Services): Result<Node, AvatarError> {
    match ParseLabel(badge)
    case None => Err(InvalidBadgeLabel(badge))
    case Some(l) =>
      match EmbeddedFace(svg, faceImage, svc)
      case Err(e) => Err(e)
      case Ok(embedded) => Sized(embedded, l, badge, count)
  }

  /** After `adorn` the document holds exactly the nested face, which keeps every
      original child in order, and the badge, placed below the face. */
  lemma AdornedShape(svg: Node, faceImage: Option<nat>, badge: string, count: int, svc: Services)
    requires Adorned(svg, faceImage, badge, count, svc).Ok?
    ensures var r := Adorned(svg, faceImage, badge, count, svc).value;
      var size := ViewBoxSize(EmbeddedFace(svg, faceImage, svc).value).value;
      && ParseLabel(badge).Some? && count >= 0
      && |r.children| == 2
      && r.children[0].tag == "svg"
      && r.children[0].children == EmbeddedFace(svg, faceImage, svc).value.children
      && |r.children[0].children| == |svg.children|
      && r.children[0].attrs["width"] == Fixed(size.0)
      && r.children[0].attrs["height"] == Fixed(size.1)
      && r.children[1].attrs["y"] == Fixed(size.1 + BadgeOff as real)
      && r.attrs["viewBox"].Box? && r.attrs["viewBox"].h == size.1 + (BadgeH + BadgeOff) as real
  {
    MeasurableBadgeTexts(ParseLabel(badge).value, count);
  }

  /** AvatarAdorner: a face picture being decorated with one badge. The face
      <image> and the nested face <svg> are kept as positions among the root's
      children. */
  class AvatarAdorner {
    var svg: Node
    var faceImage: Option<nat>
    var faceSvg: Option<nat>
    var faceW: real
    var faceH: real
    var badge: string
    var badgeCount: int
    var badger: Badger?

    constructor ()
      ensures svg == Node(SvgNs + "svg", map[], "", []) && faceImage == None && faceSvg == None
      ensures badger == null
    {
      svg := Node(SvgNs + "svg", map[], "", []);
      faceImage, faceSvg := None, None;
      faceW, faceH := 0.0, 0.0;
      badge, badgeCount := "", 0;
      badger := null;
    }

    method InitFaceImage()
      modifies this`faceImage
      ensures faceImage == FirstChildWithTag(svg.children, SvgNs + "image")
    {
      faceImage := FirstChildWithTag(svg.children, SvgNs + "image");
    }

    /** init_with_face: the GitHub template pointing at the avatar URL. */
    method InitWithFace(faceUrl: string)
      modifies this
      ensures faceImage == Some(1)
      ensures svg == SetChildAttr(GithubTemplate(), 1, XlinkHref, Text(faceUrl))
      ensures faceSvg == old(faceSvg) && badger == old(badger)
    {
      GithubImageIsSecond();
      svg := GithubTemplate();
      assert svg.children == [GithubClip(), GithubImage(), GithubRing()];
      InitFaceImage();
      svg := SetChildAttr(svg, faceImage.value, XlinkHref, Text(faceUrl));
    }

    /** init_with_sourcerer: the SVG document served at the avatar URL. */
    method InitWithSourcerer(avatarUrl: string, svc: Services)
      modifies this
      ensures svg == svc.fetchSvg(avatarUrl)
      ensures faceImage == FirstChildWithTag(svg.children, SvgNs + "image")
      ensures faceSvg == old(faceSvg) && badger == old(badger)
    {
      svg := svc.fetchSvg(avatarUrl);
      InitFaceImage();
    }

    method EmbedFace(svc: Services) returns (o: Outcome<AvatarError>)
      modifies this`svg
      ensures EmbeddedFace(old(svg), faceImage, svc).Err? ==>
                o == Fail(EmbeddedFace(old(svg), faceImage, svc).error) && svg == old(svg)
      ensures EmbeddedFace(old(svg), faceImage, svc).Ok? ==>
                o == Pass && svg == EmbeddedFace(old(svg), faceImage, svc).value
    {
      var r := EmbeddedFace(svg, faceImage, svc);
      if r.Err? {
        return Fail(r.error);
      }
      svg := r.value;
      o := Pass;
    }

    method InitSizes() returns (o: Outcome<AvatarError>)
      modifies this`faceW, this`faceH
      ensures ViewBoxSize(svg).Err? ==> o == Fail(ViewBoxSize(svg).error)
      ensures ViewBoxSize(svg).Ok? ==> o == Pass && (faceW, faceH) == ViewBoxSize(svg).value
    {
      var r := ViewBoxSize(svg);
      if r.Err? {
        return Fail(r.error);
      }
      faceW, faceH := r.value.0, r.value.1;
      o := Pass;
    }

    /** _nest_svg: a new <svg> child is appended, then every original child is
        removed from the root and appended to it, one at a time. */
    method NestSvg()
      modifies this`svg, this`faceSvg
      ensures svg == Nested(old(svg), faceW, faceH)
      ensures faceSvg == Some(0)
    {
      var children := svg.children;
      var face := Node("svg", map[], "", []);
      svg := svg.(children := svg.children + [face]);
      var i := 0;
      while i < |children|
        invariant 0 <= i <= |children|
        decreases |children| - i
        invariant face == Node("svg", map[], "", children[..i])
        invariant svg == old(svg).(children := children[i..] + [face])
      {
        var child := children[i];
        assert svg.children[0] == child;
        svg := svg.(children := svg.children[1..]);
        face := face.(children := face.children + [child]);
        assert children[..i + 1] == children[..i] + [child];
        svg := svg.(children := svg.children[..|svg.children| - 1] + [face]);
        assert children[i..][1..] == children[i + 1..];
        i := i + 1;
      }
      assert children[..i] == children;
      face := SetAttr(SetAttr(face, "width", Fixed(faceW)), "height", Fixed(faceH));
      svg := svg.(children := [face]);
      faceSvg := Some(0);
    }

    /** AvatarAdorner._make_badge. */
    method MakeBadge() returns (o: Outcome<AvatarError>)
      requires badger != null
      requires faceSvg == Some(0) && |svg.children| == 1
      modifies this`svg, badger
      ensures badger == old(badger)
      ensures ParseLabel(badge).Some? ==>
        var r := Badged(old(svg), ParseLabel(badge).value, badge, badgeCount, faceW, faceH);
        (r.Err? ==> o == Fail(r.error)) && (r.Ok? ==> o == Pass && svg == r.value)
    {
      o := badger.MakeBadge(badge, badgeCount);
      if o.Fail? {
        return;
      }
      var b := badger.svg.value;
      var bw, bh := badger.badgeW, badger.badgeH;
      var p := Layout(faceW, faceH, bw as real, bh as real, badger.badgeOff as real);
      ghost var nested := svg;
      WithBadgeSteps(nested, b, faceW, faceH, bw, bh);
      svg := svg.(children := svg.children + [b]);
      if p.faceX.Some? {
        svg := SetChildAttr(svg, faceSvg.value, "x", Fixed(p.faceX.value));
      } else {
        svg := SetChildAttr(svg, 1, "x", Fixed(p.badgeX.value));
      }
      svg := SetAttr(svg, "viewBox", Box(p.canvasW, p.canvasH));
      svg := SetChildAttr(svg, 1, "y", Fixed(p.badgeY));
    }

    /** adorn: validate the label, then embed the face, measure it, nest it and
        add the badge. After a failure the document holds whatever the steps
        before it wrote; the contract leaves it unspecified, as the caller
        discards an adorner whose `adorn` raised. */
    method Adorn(badge: string, count: int, svc: Services) returns (o: Outcome<AvatarError>)
      modifies this
      ensures Adorned(old(svg), old(faceImage), badge, count, svc).Err? ==>
                o == Fail(Adorned(old(svg), old(faceImage), badge, count, svc).error)
      ensures Adorned(old(svg), old(faceImage), badge, count, svc).Ok? ==>
                o == Pass && svg == Adorned(old(svg), old(faceImage), badge, count, svc).value
    {
      if ParseLabel(badge).None? {
        return Fail(InvalidBadgeLabel(badge));
      }
      this.badge := badge;
      badgeCount := count;
      badger := new Badger();
      o := EmbedFace(svc);
      if o.Fail? {
        return;
      }
      o := InitSizes();
      if o.Fail? {
        return;
      }
      NestSvg();
      o := MakeBadge();
    }
  }
}
