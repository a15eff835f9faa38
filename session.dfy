/** The editing session: the deck on screen, the active slide, the last error,
    the loading flags, and the handlers that change them. Each asynchronous
    handler is split at its `await` into a Begin step, which decides whether a
    request is sent and returns it, and a Complete step, which receives the
    remote outcome as a parameter and applies it atomically. */
module Session {
  import opened Types
  import Text
  import Export

  const GenerationErrorDefault: string := "An error occurred while generating slides."
  const ImageErrorMessage: string := "Failed to generate AI image. Please try again."
  const ExportErrorMessage: string := "Failed to export PowerPoint file."

  /** `slides.find(s => s.id === id)`: the first slide with that id, if any. */
  function FindSlide(slides: seq<Slide>, id: string): (r: Option<Slide>)
    ensures r.None? <==> forall i :: 0 <= i < |slides| ==> slides[i].id != id
    ensures r.Some? ==> exists k :: 0 <= k < |slides| && slides[k] == r.value && r.value.id == id
                                   && forall j :: 0 <= j < k ==> slides[j].id != id
  {
    if slides == [] then None
    else if slides[0].id == id then Some(slides[0])
    else
      var r := FindSlide(slides[1..], id);
      assert r.Some? ==> exists k :: 1 <= k < |slides| && slides[k] == r.value && r.value.id == id
                                    && forall j :: 1 <= j < k ==> slides[j].id != id;
      r
  }

  /** The two slides agree on everything but the generated image. */
  predicate SameExceptImage(a: Slide, b: Slide) {
    && a.id == b.id
    && a.title == b.title
    && a.content == b.content
    && a.speakerNotes == b.speakerNotes
    && a.imageDescription == b.imageDescription
  }

  /** `slides.map(s => s.id === id ? { ...s, generatedImageUrl: url } : s)`:
      every slide with the id gets the image, every other slide and every
      other field stays as it was, and length and order are kept. */
  function AttachImage(slides: seq<Slide>, id: string, url: string): (r: seq<Slide>)
    ensures |r| == |slides|
    ensures forall i :: 0 <= i < |slides| ==> SameExceptImage(slides[i], r[i])
    ensures forall i :: 0 <= i < |slides| ==>
      r[i].generatedImageUrl == if slides[i].id == id then Some(url) else slides[i].generatedImageUrl
  {
    if slides == [] then []
    else
      var head := if slides[0].id == id then slides[0].(generatedImageUrl := Some(url)) else slides[0];
      [head] + AttachImage(slides[1..], id, url)
  }

  /** An image addressed to an id the deck does not hold changes nothing. */
  lemma AttachImageMissingId(slides: seq<Slide>, id: string, url: string)
    requires forall i :: 0 <= i < |slides| ==> slides[i].id != id
    ensures AttachImage(slides, id, url) == slides
  {
    var r := AttachImage(slides, id, url);
    assert forall i :: 0 <= i < |slides| ==> r[i] == slides[i];
  }

  /** Two images for different ids may complete in either order. */
  lemma AttachImageCommutes(slides: seq<Slide>, a: string, u: string, b: string, v: string)
    requires a != b
    ensures AttachImage(AttachImage(slides, a, u), b, v) == AttachImage(AttachImage(slides, b, v), a, u)
  {
    var x := AttachImage(AttachImage(slides, a, u), b, v);
    var y := AttachImage(AttachImage(slides, b, v), a, u);
    assert forall i :: 0 <= i < |slides| ==> x[i] == y[i];
  }

  /** Two images for the same id: the later one wins. */
  lemma AttachImageLastWins(slides: seq<Slide>, id: string, u: string, v: string)
    ensures AttachImage(AttachImage(slides, id, u), id, v) == AttachImage(slides, id, v)
  {
    var x := AttachImage(AttachImage(slides, id, u), id, v);
    var y := AttachImage(slides, id, v);
    assert forall i :: 0 <= i < |slides| ==> x[i] == y[i];
  }

  /** `Math.max(0, i - 1)`: one slide back, never before the first. */
  function PrevIndex(i: int): (r: int)
    ensures 0 <= r
    ensures 0 < i ==> r == i - 1
    ensures i <= 0 ==> r == 0
  {
    if i - 1 < 0 then 0 else i - 1
  }

  /** `Math.min(len - 1, i + 1)`: one slide on, never past the last. */
  function NextIndex(i: int, len: int): (r: int)
    ensures r <= len - 1
    ensures i + 1 <= len - 1 ==> r == i + 1
    ensures len - 1 < i + 1 ==> r == len - 1
    ensures 0 <= i < len ==> 0 <= r < len
  {
    if len - 1 < i + 1 then len - 1 else i + 1
  }

  /** On a deck with at least one slide, both arrows keep the index on a
      slide, each stays put at its own end, and away from the ends each
      undoes the other. */
  lemma NavigationInRange(i: int, len: int)
    requires 0 <= i < len
    ensures 0 <= PrevIndex(i) < len && 0 <= NextIndex(i, len) < len
    ensures PrevIndex(0) == 0 && NextIndex(len - 1, len) == len - 1
    ensures i < len - 1 ==> PrevIndex(NextIndex(i, len)) == i
    ensures 0 < i ==> NextIndex(PrevIndex(i), len) == i
  {
  }

  /** The file handed to the presentation writer. */
  datatype PptxFile = PptxFile(fileName: string, presentation: Export.Presentation)

  /** The state of the application component. */
  class App {
    var inputText: string
    var isGenerating: bool
    var data: Option<PresentationData>
    var currentTheme: ThemeType
    var activeSlideIndex: int
    var error: Option<string>
    var generatingImages: map<string, bool>

    /** Whenever the deck has slides, the active index is one of them. */
    ghost predicate Valid()
      reads this
    {
      data.Some? && |data.value.slides| > 0 ==> 0 <= activeSlideIndex < |data.value.slides|
    }

    constructor ()
      ensures Valid()
      ensures inputText == "" && !isGenerating && data.None? && currentTheme == Corporate
      ensures activeSlideIndex == 0 && error.None? && generatingImages == map[]
    {
      inputText := "";
      isGenerating := false;
      data := None;
      currentTheme := Corporate;
      activeSlideIndex := 0;
      error := None;
      generatingImages := map[];
    }

    /** Typing into the source text area. */
    method SetInput(text: string)
      requires Valid()
      modifies this`inputText
      ensures Valid() && inputText == text
    {
      inputText := text;
    }

    /** Picking a theme in the theme selector. */
    method SelectTheme(t: ThemeType)
      requires Valid()
      modifies this`currentTheme
      ensures Valid() && currentTheme == t
    {
      currentTheme := t;
    }

    /** `handleGenerate` up to its `await`: input that is blank after
        trimming is ignored; otherwise the loading flag is raised, the error
        cleared, and the untrimmed input is the request. */
    method BeginGenerate() returns (request: Option<string>)
      requires Valid()
      modifies this`isGenerating, this`error
      ensures Valid()
      ensures request.None? <==> Text.AllWs(inputText)
      ensures request.None? ==> isGenerating == old(isGenerating) && error == old(error)
      ensures request.Some? ==> request.value == inputText && isGenerating && error.None?
    {
      Text.TrimEmptyIffAllWs(inputText);
      if Text.Trim(inputText) == [] {
        return None;
      }
      isGenerating := true;
      error := None;
      request := Some(inputText);
    }

    /** `handleGenerate` after its `await`: a new deck replaces the old one
        wholesale and the first slide becomes active; a failure keeps the old
        deck and index and records the error's message, or the default one
        when the message is empty. Either way the loading flag drops. */
    method CompleteGenerate(outcome: Outcome<PresentationData>)
      requires Valid()
      modifies this`data, this`activeSlideIndex, this`error, this`isGenerating
      ensures Valid()
      ensures !isGenerating
      ensures outcome.Done? ==> data == Some(outcome.value) && activeSlideIndex == 0 && error == old(error)
      ensures outcome.Failed? ==> data == old(data) && activeSlideIndex == old(activeSlideIndex)
      ensures outcome.Failed? ==>
        error == Some(if outcome.message != [] then outcome.message else GenerationErrorDefault)
    {
      match outcome {
        case Done(result) =>
          data := Some(result);
          activeSlideIndex := 0;
        case Failed(message) =>
          error := Some(if message != [] then message else GenerationErrorDefault);
      }
      isGenerating := false;
    }

    /** `handleGenerateImage` up to its `await`: without a deck, without a
        slide of that id, or when the first such slide has no (or an empty)
        image description, nothing happens. Otherwise the id is flagged as
        loading and the description is the request. */
    method BeginImage(slideId: string) returns (prompt: Option<string>)
      requires Valid()
      modifies this`generatingImages
      ensures Valid()
      ensures prompt.Some? <==>
        data.Some? && FindSlide(data.value.slides, slideId).Some?
        && Truthy(FindSlide(data.value.slides, slideId).value.imageDescription)
      ensures prompt.Some? ==>
        prompt == FindSlide(data.value.slides, slideId).value.imageDescription
        && generatingImages == old(generatingImages)[slideId := true]
      ensures prompt.None? ==> generatingImages == old(generatingImages)
    {
      if data.None? {
        return None;
      }
      var slide := FindSlide(data.value.slides, slideId);
      if slide.None? || !Truthy(slide.value.imageDescription) {
        return None;
      }
      generatingImages := generatingImages[slideId := true];
      prompt := slide.value.imageDescription;
    }

    /** `handleGenerateImage` after its `await`: an image is written, by id
        alone, into every slide of the deck current at that moment that has
        the id (no check that it is the deck the request was made for); a
        failure records the image error. Either way the id stops loading. */
    method CompleteImage(slideId: string, outcome: Outcome<string>)
      requires Valid()
      modifies this`data, this`error, this`generatingImages
      ensures Valid()
      ensures generatingImages == old(generatingImages)[slideId := false]
      ensures outcome.Done? ==>
        && error == old(error)
        && data == if old(data).None? then None
                   else Some(old(data).value.(slides := AttachImage(old(data).value.slides, slideId, outcome.value)))
      ensures outcome.Failed? ==> data == old(data) && error == Some(ImageErrorMessage)
    {
      match outcome {
        case Done(imageUrl) =>
          if data.Some? {
            data := Some(data.value.(slides := AttachImage(data.value.slides, slideId, imageUrl)));
          }
        case Failed(_) =>
          error := Some(ImageErrorMessage);
      }
      generatingImages := generatingImages[slideId := false];
    }

    /** The "previous slide" arrow. */
    method PreviousSlide()
      requires Valid()
      modifies this`activeSlideIndex
      ensures Valid()
      ensures activeSlideIndex == PrevIndex(old(activeSlideIndex))
    {
      activeSlideIndex := PrevIndex(activeSlideIndex);
    }

    /** The "next slide" arrow, shown only while there is a deck. */
    method NextSlide()
      requires Valid() && data.Some?
      modifies this`activeSlideIndex
      ensures Valid()
      ensures activeSlideIndex == NextIndex(old(activeSlideIndex), |data.value.slides|)
    {
      activeSlideIndex := NextIndex(activeSlideIndex, |data.value.slides|);
    }

    /** A click on the thumbnail of slide `idx`. */
    method SelectSlide(idx: int)
      requires Valid() && data.Some? && 0 <= idx < |data.value.slides|
      modifies this`activeSlideIndex
      ensures Valid() && activeSlideIndex == idx
    {
      activeSlideIndex := idx;
    }

    /** `downloadPPTX`: without a deck nothing happens. Otherwise the deck is
        exported in the current theme and written under the sanitized title;
        `writeSucceeded` is the writer's outcome. On success the file is
        returned; on failure no file is exposed and the export error is
        recorded. The deck and everything but the error are left alone. */
    method Download(writeSucceeded: bool) returns (file: Option<PptxFile>)
      requires Valid()
      modifies this`error
      ensures Valid()
      ensures data.None? ==> file.None? && error == old(error)
      ensures data.Some? && writeSucceeded ==>
        file == Some(PptxFile(Text.FileName(data.value.title), Export.DeckSpec(data.value, currentTheme)))
        && error == old(error)
      ensures data.Some? && !writeSucceeded ==> file.None? && error == Some(ExportErrorMessage)
    {
      if data.None? {
        return None;
      }
      var pres := Export.ExportDeck(data, currentTheme);
      var fileName := Text.FileName(data.value.title);
      if writeSucceeded {
        file := Some(PptxFile(fileName, pres.value));
      } else {
        error := Some(ExportErrorMessage);
        file := None;
      }
    }
  }

  /** An image requested for slide "s1" of one deck completes after the user
      has generated a new deck that reuses the id "s1": the late image lands
      on the new deck's slide, and the other slide of the new deck is left
      untouched. */
  method LateImageAfterRegeneration() returns (landed: Option<string>, other: Option<string>)
    ensures landed == Some("data:image/png;base64,AAAA")
    ensures other == None
  {
    var app := new App();
    var first := PresentationData("Old", [Slide("s1", "Intro", ["A"], "n", Some("a chart"), None)]);
    var second := PresentationData("New", [Slide("s1", "Other", ["B"], "m", None, None),
                                           Slide("s2", "More", [], "", None, None)]);
    app.SetInput("plan");
    assert !Text.IsWs(app.inputText[0]);
    var request := app.BeginGenerate();
    app.CompleteGenerate(Done(first));
    var prompt := app.BeginImage("s1");
    assert prompt == Some("a chart");
    request := app.BeginGenerate();
    app.CompleteGenerate(Done(second));
    app.CompleteImage("s1", Done("data:image/png;base64,AAAA"));
    landed := app.data.value.slides[0].generatedImageUrl;
    other := app.data.value.slides[1].generatedImageUrl;
  }
}
