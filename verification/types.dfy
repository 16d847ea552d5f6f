/**
 * The records shared by the map page, the sidebar and the detail panel.
 *
 * The repository declares them twice, in types.ts (used by the map page and
 * the sidebar) and in types/types.ts (used by the sampler and the detail
 * panel); the second adds `meaning` to a word and an optional polygon to a
 * language. One datatype per record carries the union of both shapes.
 */
module Types {

  datatype Option<+T> = None | Some(value: T)

  /** A coordinate pair. Which component is the latitude depends on the caller:
      the sampler tests candidates as [lng, lat] and returns them as [lat, lng]. */
  type Point = (real, real)

  /** A dictionary entry. `period` is free text here because rows read back from
      the data store are not guaranteed to hold one of the three declared values. */
  datatype Word = Word(
    id: int,
    word: string,
    meaning: string,
    originLanguage: string,
    period: string,
    exampleSentence: string,
    source: string,
    references: Option<string>)

  /** The origin language of each word, in order: `words.map(w => w.originLanguage)`. */
  function LangsOf(ws: seq<Word>): (r: seq<string>)
    ensures |r| == |ws|
  {
    seq(|ws|, i requires 0 <= i < |ws| => ws[i].originLanguage)
  }

  lemma LangsOfSnoc(ws: seq<Word>, w: Word)
    ensures LangsOf(ws + [w]) == LangsOf(ws) + [w.originLanguage]
  {
  }

  /** [minLat, minLng, maxLat, maxLng], in the order the source destructures it. */
  datatype BBox = BBox(minLat: real, minLng: real, maxLat: real, maxLng: real)

  /** A box that the uniform draw can fill: both axes non-degenerate. */
  predicate ProperBox(b: BBox)
  {
    b.minLat < b.maxLat && b.minLng < b.maxLng
  }

  /** `p` read as [lat, lng] lies in the half-open box that a draw from [0,1) covers. */
  predicate InBox(p: Point, b: BBox)
  {
    b.minLat <= p.0 < b.maxLat && b.minLng <= p.1 < b.maxLng
  }

  /** A territory descriptor. The bounding box is optional because both the
      sampler and the word-selection handler test for its absence; the polygon
      is a list of rings of [lng, lat] vertices, the first being the outer one. */
  datatype Language = Language(
    language: string,
    representativeCountry: string,
    boundingBox: Option<BBox>,
    polygon: Option<seq<seq<Point>>>)

  /** A word with the [lat, lng] position of its marker. */
  datatype WordOnMap = WordOnMap(word: Word, coordinates: Point)

  /** Every draw of a random stream lies in [0, 1), as Math.random promises. */
  ghost predicate UnitStream(rand: nat -> real)
  {
    forall i :: 0.0 <= rand(i) < 1.0
  }
}
