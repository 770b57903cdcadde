/** The immutable records a tracing session works on: a character, its
    ordered reference strokes and the points those strokes are made of.
    Coordinates are exact reals; the source's 32-bit floats are not modelled. */
module Characters {

  /** A point of the shared canvas space. */
  datatype Point = Point(x: real, y: real)

  /** One reference stroke of a character. `pathData`, `startPoint` and
      `endPoint` are carried but read by no logic of the engine; only the
      ordered `guidancePoints` are. */
  datatype StrokePath = StrokePath(
    id: int,
    order: int,
    pathData: string,
    startPoint: Point,
    endPoint: Point,
    guidancePoints: seq<Point>)

  /** The category of a character. */
  datatype CharacterType = VOWEL | CONSONANT | VOWEL_SIGN | CONJUNCT | NUMBER

  /** A character with its strokes in tracing order. `difficulty` is 1
      unless the constructor is given another value. */
  datatype BengaliCharacter = BengaliCharacter(
    id: int,
    unicode: string,
    romanizedName: string,
    bengaliName: string,
    kind: CharacterType,
    audioResId: int,
    strokePaths: seq<StrokePath>,
    difficulty: int := 1)

  /** A character built without a difficulty has difficulty 1, and every
      other field is what it was given. */
  lemma DifficultyDefaultsToOne(id: int, unicode: string, romanizedName: string, bengaliName: string,
                                kind: CharacterType, audioResId: int, strokePaths: seq<StrokePath>)
    ensures BengaliCharacter(id, unicode, romanizedName, bengaliName, kind, audioResId, strokePaths).difficulty == 1
    ensures BengaliCharacter(id, unicode, romanizedName, bengaliName, kind, audioResId, strokePaths).strokePaths == strokePaths
  {
  }

  /** There are exactly five character categories. */
  lemma CharacterTypeHasFiveValues(t: CharacterType)
    ensures t == VOWEL || t == CONSONANT || t == VOWEL_SIGN || t == CONJUNCT || t == NUMBER
    ensures |{VOWEL, CONSONANT, VOWEL_SIGN, CONJUNCT, NUMBER}| == 5
  {
  }

  /** Equality of points, as for a data class, is equality of all fields. */
  lemma PointEqualityIsStructural(p: Point, q: Point)
    ensures p == q <==> p.x == q.x && p.y == q.y
  {
  }

  /** Equality of strokes is equality of all fields. */
  lemma StrokeEqualityIsStructural(s: StrokePath, t: StrokePath)
    ensures s == t <==> (s.id == t.id && s.order == t.order && s.pathData == t.pathData &&
                         s.startPoint == t.startPoint && s.endPoint == t.endPoint &&
                         s.guidancePoints == t.guidancePoints)
  {
  }

  /** The demonstration character "অ": one stroke whose nine guidance
      points form a closed loop starting and ending at (50, 50). */
  function SampleCharacter(): (c: BengaliCharacter)
    ensures c.kind == VOWEL && c.difficulty == 1
    ensures |c.strokePaths| == 1
    ensures |c.strokePaths[0].guidancePoints| == 9
    ensures c.strokePaths[0].guidancePoints[0] == c.strokePaths[0].guidancePoints[8] == Point(50.0, 50.0)
    ensures c.strokePaths[0].startPoint == Point(50.0, 50.0) && c.strokePaths[0].endPoint == Point(50.0, 90.0)
  {
    BengaliCharacter(
      1, "অ", "o", "অ", VOWEL, 0,
      [StrokePath(
         1, 1,
         "M50,50 C70,30 90,50 90,70 C90,90 70,100 50,90 C30,80 30,60 50,50",
         Point(50.0, 50.0), Point(50.0, 90.0),
         [Point(50.0, 50.0), Point(70.0, 30.0), Point(90.0, 50.0), Point(90.0, 70.0),
          Point(70.0, 100.0), Point(50.0, 90.0), Point(30.0, 80.0), Point(30.0, 60.0),
          Point(50.0, 50.0)])])
  }
}
