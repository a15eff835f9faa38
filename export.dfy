/** The PowerPoint export: the deck and the selected theme become the list of
    slides handed to the presentation writer. Every slide gets the theme's
    background, a title box, a bullet block, an image box when the slide has
    a generated image, and the slide's speaker notes. The writer and the
    binary file it produces are not part of this model; the shapes it is
    asked to draw are. */
module Export {
  import opened Types

  /** The colour triple of one export theme, as six-digit hex strings. */
  datatype Palette = Palette(bg: string, text: string, accent: string)

  /** A position or extent: inches, or a percentage of the slide. */
  datatype Dim = Inches(inches: real) | Percent(percent: nat)

  /** One bullet line of the bullet block, with its own run options. */
  datatype TextRun = TextRun(text: string, bullet: bool, color: string, fontSize: nat, margin: nat)

  datatype Shape =
    | TitleBox(text: string, x: Dim, y: Dim, w: Dim, h: Dim,
               fontSize: nat, bold: bool, color: string, fontFace: string)
    | BulletBox(runs: seq<TextRun>, x: Dim, y: Dim, w: Dim, h: Dim,
                valign: string, fontFace: string)
    | ImageBox(data: string, x: Dim, y: Dim, w: Dim, h: Dim)

  /** One slide of the output: background fill, shapes in the order they
      were added, and presenter notes. */
  datatype OutSlide = OutSlide(background: string, shapes: seq<Shape>, notes: string)

  datatype Presentation = Presentation(layout: string, title: string, slides: seq<OutSlide>)

  const Layout: string := "LAYOUT_16x9"

  /** A colour as the writer expects it: six hexadecimal digits, no `#`. */
  predicate IsHexColor(c: string) {
    |c| == 6 && forall i :: 0 <= i < |c| ==> '0' <= c[i] <= '9' || 'a' <= c[i] <= 'f'
  }

  /** The export colour table: every colour is six hex digits, and text
      never has the background colour. */
  function ThemeColors(t: ThemeType): (p: Palette)
    ensures IsHexColor(p.bg) && IsHexColor(p.text) && IsHexColor(p.accent)
    ensures p.text != p.bg
  {
    match t
    case Corporate => Palette("0f172a", "ffffff", "60a5fa")
    case Modern => Palette("ffffff", "18181b", "059669")
    case Minimal => Palette("f8fafc", "000000", "f97316")
    case Elegant => Palette("f5f5f4", "1c1917", "78350f")
  }

  /** The font of slide titles: a serif face for the elegant theme only. */
  function TitleFont(t: ThemeType): (f: string)
    ensures f == "Georgia" <==> t == Elegant
    ensures f == "Arial" <==> t != Elegant
  {
    if t == Elegant then "Georgia" else "Arial"
  }

  /** `content.map(text => ({ text, options: ... }))`: one bullet run per
      content line, in order, with the same text and fixed run options. */
  function BulletRuns(content: seq<string>, color: string): (runs: seq<TextRun>)
    ensures |runs| == |content|
    ensures forall i :: 0 <= i < |content| ==>
      && runs[i].text == content[i]
      && runs[i].bullet
      && runs[i].color == color
      && runs[i].fontSize == 18
      && runs[i].margin == 5
  {
    if content == [] then []
    else [TextRun(content[0], true, color, 18, 5)] + BulletRuns(content[1..], color)
  }

  /** The output slide for one deck slide: the declarative reading of the
      body of the export loop. */
  function SlideSpec(s: Slide, t: ThemeType): (o: OutSlide)
    ensures |o.shapes| == if HasImage(s) then 3 else 2
    ensures o.shapes[0].TitleBox? && o.shapes[1].BulletBox?
  {
    var colors := ThemeColors(t);
    var title := TitleBox(s.title, Inches(0.5), Inches(0.5), Percent(90), Inches(1.0),
                          36, true, colors.text, TitleFont(t));
    var bullets := BulletBox(BulletRuns(s.content, colors.text),
                             Inches(0.5), Inches(1.8), if HasImage(s) then Percent(50) else Percent(90),
                             Inches(3.0), "top", "Arial");
    var image := if HasImage(s)
                 then [ImageBox(s.generatedImageUrl.value, Percent(55), Inches(1.8), Percent(40), Inches(3.0))]
                 else [];
    OutSlide(colors.bg, [title, bullets] + image, s.speakerNotes)
  }

  /** The presentation the exporter hands to the writer for a deck. */
  function DeckSpec(d: PresentationData, t: ThemeType): (p: Presentation)
    ensures p.layout == Layout && p.title == d.title
    ensures |p.slides| == |d.slides|
    ensures forall i :: 0 <= i < |d.slides| ==> p.slides[i] == SlideSpec(d.slides[i], t)
  {
    Presentation(Layout, d.title, seq(|d.slides|, i requires 0 <= i < |d.slides| => SlideSpec(d.slides[i], t)))
  }

  /** The export loop. It reads the deck and theme, never writes them, does
      nothing without a deck, and otherwise produces one output slide per
      deck slide, in deck order, under the deck's title. */
  method ExportDeck(data: Option<PresentationData>, theme: ThemeType) returns (pres: Option<Presentation>)
    ensures data.None? <==> pres.None?
    ensures data.Some? ==> pres.value.layout == Layout && pres.value.title == data.value.title
    ensures data.Some? ==> |pres.value.slides| == |data.value.slides|
    ensures data.Some? ==> forall i :: 0 <= i < |data.value.slides| ==>
      pres.value.slides[i] == SlideSpec(data.value.slides[i], theme)
    ensures data.Some? ==> pres.value == DeckSpec(data.value, theme)
  {
    if data.None? {
      return None;
    }
    var deck := data.value;
    var colors := ThemeColors(theme);
    var slides: seq<OutSlide> := [];
    for i := 0 to |deck.slides|
      invariant |slides| == i
      invariant forall j :: 0 <= j < i ==> slides[j] == SlideSpec(deck.slides[j], theme)
    {
      var slide := deck.slides[i];
      var background := colors.bg;
      var shapes: seq<Shape> := [];
      shapes := shapes + [TitleBox(slide.title, Inches(0.5), Inches(0.5), Percent(90), Inches(1.0),
                                   36, true, colors.text, TitleFont(theme))];
      var runs := BulletRuns(slide.content, colors.text);
      var width := if HasImage(slide) then Percent(50) else Percent(90);
      shapes := shapes + [BulletBox(runs, Inches(0.5), Inches(1.8), width, Inches(3.0), "top", "Arial")];
      if HasImage(slide) {
        shapes := shapes + [ImageBox(slide.generatedImageUrl.value, Percent(55), Inches(1.8), Percent(40), Inches(3.0))];
      }
      slides := slides + [OutSlide(background, shapes, slide.speakerNotes)];
    }
    pres := Some(Presentation(Layout, deck.title, slides));
  }

  /** Every output slide is filled with the theme's background colour and
      carries the slide's speaker notes verbatim. */
  lemma SlideBackgroundAndNotes(s: Slide, t: ThemeType)
    ensures SlideSpec(s, t).background == ThemeColors(t).bg
    ensures SlideSpec(s, t).notes == s.speakerNotes
  {
  }

  /** The title box comes first, with fixed geometry and size, bold, in the
      theme's text colour, and in Georgia exactly for the elegant theme. */
  lemma SlideTitleBox(s: Slide, t: ThemeType)
    ensures var shape := SlideSpec(s, t).shapes[0];
      && shape.TitleBox?
      && shape.text == s.title
      && shape.x == Inches(0.5) && shape.y == Inches(0.5)
      && shape.w == Percent(90) && shape.h == Inches(1.0)
      && shape.fontSize == 36 && shape.bold
      && shape.color == ThemeColors(t).text
      && (shape.fontFace == "Georgia" <==> t == Elegant)
      && (shape.fontFace == "Arial" <==> t != Elegant)
  {
  }

  /** The bullet block comes second: one bullet per content line with the
      same text in the same order, at a fixed place, half the width next to
      an image and nine tenths of it otherwise. */
  lemma SlideBulletBox(s: Slide, t: ThemeType)
    ensures var shape := SlideSpec(s, t).shapes[1];
      && shape.BulletBox?
      && |shape.runs| == |s.content|
      && (forall i :: 0 <= i < |s.content| ==>
            shape.runs[i].text == s.content[i] && shape.runs[i].bullet
            && shape.runs[i].color == ThemeColors(t).text
            && shape.runs[i].fontSize == 18 && shape.runs[i].margin == 5)
      && shape.x == Inches(0.5) && shape.y == Inches(1.8) && shape.h == Inches(3.0)
      && shape.valign == "top" && shape.fontFace == "Arial"
      && (shape.w == Percent(50) <==> HasImage(s))
      && (shape.w == Percent(90) <==> !HasImage(s))
  {
  }

  /** An image box is present exactly when the slide has a generated image;
      it is the third and last shape and carries that image's data. */
  lemma SlideImageBox(s: Slide, t: ThemeType)
    ensures (exists k :: 0 <= k < |SlideSpec(s, t).shapes| && SlideSpec(s, t).shapes[k].ImageBox?) <==> HasImage(s)
    ensures HasImage(s) ==>
      && |SlideSpec(s, t).shapes| == 3
      && SlideSpec(s, t).shapes[2] == ImageBox(s.generatedImageUrl.value, Percent(55), Inches(1.8), Percent(40), Inches(3.0))
    ensures !HasImage(s) ==> |SlideSpec(s, t).shapes| == 2
  {
    var shapes := SlideSpec(s, t).shapes;
    if HasImage(s) {
      assert shapes[2].ImageBox?;
    } else {
      assert |shapes| == 2 && !shapes[0].ImageBox? && !shapes[1].ImageBox?;
      assert forall k :: 0 <= k < |shapes| ==> !shapes[k].ImageBox?;
    }
  }

  /** The example deck "Q1 Plan" with one two-bullet slide, exported in the
      minimal theme: one slide on the light background, the wide bullet
      layout, no image box, and notes "n1". */
  lemma QuarterlyPlanExport()
    ensures var deck := PresentationData("Q1 Plan",
              [Slide("s1", "Intro", ["A", "B"], "n1", None, None)]);
      var pres := DeckSpec(deck, Minimal);
      && pres.title == "Q1 Plan"
      && |pres.slides| == 1
      && pres.slides[0].background == "f8fafc"
      && pres.slides[0].notes == "n1"
      && |pres.slides[0].shapes| == 2
      && pres.slides[0].shapes[1].w == Percent(90)
      && |pres.slides[0].shapes[1].runs| == 2
  {
  }
}
