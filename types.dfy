/** The deck as the application holds it in memory: a titled, ordered list of
    slides, and the four export themes. */
module Types {

  /** A value that may be absent: `null`, `undefined` or a missing property. */
  datatype Option<+T> = None | Some(value: T)

  /** How an awaited remote call ends: with its value, or by throwing an
      error that carries a (possibly empty) message. */
  datatype Outcome<+T> = Done(value: T) | Failed(message: string)

  /** One slide. `id` is the key under which generated images are attached;
      `generatedImageUrl` holds the encoded image once one was generated. */
  datatype Slide = Slide(
    id: string,
    title: string,
    content: seq<string>,
    speakerNotes: string,
    imageDescription: Option<string>,
    generatedImageUrl: Option<string>)

  /** A whole deck: its title and its slides in presentation order. */
  datatype PresentationData = PresentationData(title: string, slides: seq<Slide>)

  datatype ThemeType = Corporate | Modern | Minimal | Elegant

  /** JavaScript truthiness of an optional string: present and not empty. */
  predicate Truthy(s: Option<string>) {
    s.Some? && s.value != []
  }

  /** The test `slide.generatedImageUrl ? ... : ...` of the exporter. */
  predicate HasImage(s: Slide) {
    Truthy(s.generatedImageUrl)
  }
}
