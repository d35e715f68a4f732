/** The slide record that the carousel displays (src/app/models/slide.model.ts). */
module SlideModel {
  import opened Wrappers

  /** A slide. The optional layout hints (single-line flags, background size and
      position) only affect styling and are not part of this model. */
  datatype Slide = Slide(
    id: int,
    title: string,
    text: string,
    highlightedText: Option<string>,
    ctaLabel: string,
    bgImageUrl: string,
    mainImageUrl: string)
}
