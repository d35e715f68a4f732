/** The slide renderer's `formattedText` getter: split a slide's text at the first
    occurrence of its highlighted substring
    (src/app/components/carousel-slide/carousel-slide.component.ts). */
module CarouselSlide {
  import opened Wrappers
  import opened SlideModel

  /** The three parts the template styles differently. */
  datatype Formatted = Formatted(before: string, highlight: string, after: string)

  /** `pat` starts at position `i` of `text`. */
  predicate OccursAt(text: string, pat: string, i: nat) {
    i + |pat| <= |text| && text[i..i + |pat|] == pat
  }

  /** `pat` starts at some position of `text`. */
  ghost predicate Occurs(text: string, pat: string) {
    exists i: nat :: OccursAt(text, pat, i)
  }

  lemma OccursAtShift(text: string, pat: string, k: nat)
    requires |text| > 0
    ensures OccursAt(text, pat, k + 1) == OccursAt(text[1..], pat, k)
  {
    if k + 1 + |pat| <= |text| {
      assert text[1..][k..k + |pat|] == text[k + 1..k + 1 + |pat|];
    }
  }

  /** JavaScript's `String.prototype.indexOf`: the first position at which `pat`
      occurs in `text`, or None where JavaScript answers -1. */
  function IndexOf(text: string, pat: string): (r: Option<nat>)
    ensures r.Some? ==> OccursAt(text, pat, r.value)
    ensures r.Some? ==> forall j: nat :: j < r.value ==> !OccursAt(text, pat, j)
    ensures r.None? ==> forall j: nat :: !OccursAt(text, pat, j)
    decreases |text|
  {
    if |pat| <= |text| && text[..|pat|] == pat then Some(0)
    else if |text| == 0 then None
    else
      var rest := IndexOf(text[1..], pat);
      assert forall j: nat :: j > 0 && OccursAt(text, pat, j) ==> OccursAt(text[1..], pat, j - 1) by {
        forall j: nat | j > 0 && OccursAt(text, pat, j) ensures OccursAt(text[1..], pat, j - 1) {
          OccursAtShift(text, pat, j - 1);
        }
      }
      match rest
      case None => None
      case Some(k) =>
        OccursAtShift(text, pat, k);
        Some(k + 1)
  }

  /** JavaScript's `String.prototype.includes`. */
  function Includes(text: string, pat: string): (b: bool)
    ensures b <==> Occurs(text, pat)
  {
    IndexOf(text, pat).Some?
  }

  /** `formattedText` for a slide whose text is `text` and whose optional
      highlight is `highlight`. A missing or empty highlight, or one the text
      does not contain, leaves the whole text unhighlighted. */
  function FormattedText(text: string, highlight: Option<string>): (r: Formatted)
    ensures r.before + r.highlight + r.after == text
    ensures highlight.None? || highlight.value == [] || !Occurs(text, highlight.value)
            <==> r == Formatted(text, [], [])
    ensures highlight.Some? && highlight.value != [] && Occurs(text, highlight.value) ==>
              && r.highlight == highlight.value
              && OccursAt(text, highlight.value, |r.before|)
              && (forall j: nat :: j < |r.before| ==> !OccursAt(text, highlight.value, j))
              && r.after == text[|r.before| + |highlight.value|..]
  {
    if highlight.None? || highlight.value == [] || !Includes(text, highlight.value) then
      Formatted(text, [], [])
    else
      var h := highlight.value;
      var index := IndexOf(text, h).value;
      var r := Formatted(text[..index], h, text[index + |h|..]);
      assert r.before + r.highlight + r.after == text by {
        assert text == text[..index] + text[index..index + |h|] + text[index + |h|..];
      }
      r
  }

  /** The getter as the component exposes it, reading the bound slide. */
  function SlideFormattedText(slide: Slide): (r: Formatted)
    ensures r.before + r.highlight + r.after == slide.text
    ensures r.highlight != [] ==> slide.highlightedText == Some(r.highlight)
  {
    FormattedText(slide.text, slide.highlightedText)
  }

  /** An occurrence starts with the pattern's first character. */
  lemma OccursAtHead(text: string, pat: string, i: nat)
    requires |pat| > 0
    ensures OccursAt(text, pat, i) ==> text[i] == pat[0]
  {
    if OccursAt(text, pat, i) {
      assert text[i..i + |pat|][0] == pat[0];
    }
  }

  /** The contract of `FormattedText` determines its result: a non-empty
      highlight whose first occurrence is at `i` splits the text there. */
  lemma FormattedTextAtFirstOccurrence(text: string, h: string, i: nat)
    requires h != [] && OccursAt(text, h, i)
    requires forall j: nat :: j < i ==> !OccursAt(text, h, j)
    ensures FormattedText(text, Some(h)) == Formatted(text[..i], h, text[i + |h|..])
  {
    var r := FormattedText(text, Some(h));
    assert Occurs(text, h);
    assert |r.before| == i;
    assert r.before == (r.before + r.highlight + r.after)[..i];
  }

  /** In "Get 35% off", "35%" first occurs at position 4. */
  lemma FirstOccurrenceExample()
    ensures OccursAt("Get 35% off", "35%", 4)
    ensures forall j: nat :: j < 4 ==> !OccursAt("Get 35% off", "35%", j)
  {
    var text, h := "Get 35% off", "35%";
    assert text[4..7] == h;
    forall j: nat | j < 4
      ensures !OccursAt(text, h, j)
    {
      OccursAtHead(text, h, j);
    }
  }

  /** The example "Get 35% off" with highlight "35%". */
  lemma FormattedTextFoundExample(text: string, h: string)
    requires text == "Get 35% off" && h == "35%"
    ensures FormattedText(text, Some(h)) == Formatted("Get ", "35%", " off")
  {
    assert FormattedText(text, Some(h)) == Formatted(text[..4], h, text[7..]) by {
      FirstOccurrenceExample();
      FormattedTextAtFirstOccurrence(text, h, 4);
    }
    assert text[..4] == "Get " && text[7..] == " off";
  }

  /** The same text with a highlight it does not contain. */
  lemma FormattedTextMissingExample(text: string, h: string)
    requires text == "Get 35% off" && h == "xyz"
    ensures FormattedText(text, Some(h)) == Formatted("Get 35% off", "", "")
  {
    assert 'x' !in text;
    forall i: nat ensures !OccursAt(text, h, i) {
      OccursAtHead(text, h, i);
    }
    assert !Occurs(text, h);
  }
}
