/** The emoji classification of a sentiment score (`SentimentAnalyzer.emoji(forScore:)`).

    The Swift code is a `switch` over a 64-bit `Int`. Its arms are tried in order
    and the first one whose pattern matches decides the result. Here the arms are
    data (`Arms`), `FirstMatch` gives them first-match semantics, and the result is
    proved to agree with an independent description of the same classification: the
    sign of the score picks a row of faces and its magnitude picks the intensity.
 */
module Sentiment {

  const IntMin: int := -0x8000_0000_0000_0000
  const IntMax: int := 0x7fff_ffff_ffff_ffff

  /** Swift's `Int` on a 64-bit platform. */
  type Int64 = x: int | IntMin <= x <= IntMax

  // The nine faces, named after their Unicode code points.
  const SmilingHeartEyes: string := "\U{1F60D}"   // 😍
  const GrinningBigEyes: string := "\U{1F603}"    // 😃
  const SmilingEyes: string := "\U{1F60A}"        // 😊
  const SlightSmile: string := "\U{1F642}"        // 🙂
  const Neutral: string := "\U{1F610}"            // 😐
  const SlightFrown: string := "\U{1F641}"        // 🙁
  const Frowning: string := "\U{2639}\U{FE0F}"  // ☹️ (frowning face + emoji presentation selector)
  const Steaming: string := "\U{1F624}"           // 😤
  const Pouting: string := "\U{1F621}"            // 😡

  /** A `case` pattern: a closed range or a list of values. */
  datatype Pattern = Between(lo: int, hi: int) | OneOf(values: seq<int>)

  predicate Matches(p: Pattern, x: int) {
    match p
    case Between(lo, hi) => lo <= x <= hi
    case OneOf(values) => x in values
  }

  datatype Arm = Arm(pattern: Pattern, face: string)

  /** The `case` arms of the switch, in the order the Swift code lists them; `Neutral` is the `default` arm. */
  const Arms: seq<Arm> := [
    Arm(Between(5, IntMax), SmilingHeartEyes),
    Arm(OneOf([4]), GrinningBigEyes),
    Arm(OneOf([3]), SmilingEyes),
    Arm(OneOf([2, 1]), SlightSmile),
    Arm(OneOf([-1, -2]), SlightFrown),
    Arm(OneOf([-3]), Frowning),
    Arm(OneOf([-4]), Steaming),
    Arm(Between(IntMin, -5), Pouting)
  ]

  /** Index of the first arm of `arms` whose pattern matches `x`; `|arms|` when none does
      (the switch then falls through to `default`). */
  function FirstMatch(arms: seq<Arm>, x: int): (k: nat)
    ensures k <= |arms|
    ensures k < |arms| ==> Matches(arms[k].pattern, x)
    ensures forall j :: 0 <= j < k ==> !Matches(arms[j].pattern, x)
  {
    if |arms| == 0 then 0
    else if Matches(arms[0].pattern, x) then 0
    else 1 + FirstMatch(arms[1..], x)
  }

  /** Which arm a score reaches, spelled out without the first-match search. */
  lemma ArmOf(score: Int64)
    ensures score >= 5 ==> FirstMatch(Arms, score) == 0
    ensures score == 4 ==> FirstMatch(Arms, score) == 1
    ensures score == 3 ==> FirstMatch(Arms, score) == 2
    ensures (score == 2 || score == 1) ==> FirstMatch(Arms, score) == 3
    ensures (score == -1 || score == -2) ==> FirstMatch(Arms, score) == 4
    ensures score == -3 ==> FirstMatch(Arms, score) == 5
    ensures score == -4 ==> FirstMatch(Arms, score) == 6
    ensures score <= -5 ==> FirstMatch(Arms, score) == 7
    ensures score == 0 ==> FirstMatch(Arms, score) == |Arms|
  {
    var k := FirstMatch(Arms, score);
    // Every arm before the one chosen fails, the chosen one matches: the arm is
    // pinned down by which patterns contain the score.
    assert Arms[0].pattern == Between(5, IntMax);
    assert Arms[1].pattern == OneOf([4]);
    assert Arms[2].pattern == OneOf([3]);
    assert Arms[3].pattern == OneOf([2, 1]);
    assert Arms[4].pattern == OneOf([-1, -2]);
    assert Arms[5].pattern == OneOf([-3]);
    assert Arms[6].pattern == OneOf([-4]);
    assert Arms[7].pattern == Between(IntMin, -5);
    if k < |Arms| {
      assert Matches(Arms[k].pattern, score);
    }
  }

  /** The score-to-face table of the switch, arm by arm. */
  lemma EmojiCases(score: Int64)
    ensures score >= 5 ==> Emoji(score) == SmilingHeartEyes
    ensures score == 4 ==> Emoji(score) == GrinningBigEyes
    ensures score == 3 ==> Emoji(score) == SmilingEyes
    ensures (score == 2 || score == 1) ==> Emoji(score) == SlightSmile
    ensures (score == -1 || score == -2) ==> Emoji(score) == SlightFrown
    ensures score == -3 ==> Emoji(score) == Frowning
    ensures score == -4 ==> Emoji(score) == Steaming
    ensures score <= -5 ==> Emoji(score) == Pouting
    ensures score == 0 ==> Emoji(score) == Neutral
  {
    ArmOf(score);
  }

  /** Only the score 0 falls through every arm to `default`. */
  lemma DefaultOnlyForZero(score: Int64)
    ensures FirstMatch(Arms, score) == |Arms| <==> score == 0
  {
    ArmOf(score);
  }

  /** The nine faces from most negative to most positive. */
  const Scale: seq<string> :=
    [Pouting, Steaming, Frowning, SlightFrown, Neutral, SlightSmile, SmilingEyes, GrinningBigEyes, SmilingHeartEyes]

  /** The faces are pairwise distinct, so a score's face has one position on the scale. */
  lemma ScaleDistinct()
    ensures forall i, j :: 0 <= i < j < |Scale| ==> Scale[i] != Scale[j]
  {
  }

  /** Reference classification: the magnitude of a score, clamped, graded 0..4. */
  function Intensity(magnitude: nat): (g: nat)
    ensures g <= 4
    ensures g == 0 <==> magnitude == 0
  {
    if magnitude == 0 then 0
    else if magnitude <= 2 then 1
    else if magnitude >= 5 then 4
    else magnitude - 1
  }

  function Abs(x: int): nat {
    if x < 0 then -x else x
  }

  /** Reference position on `Scale`: the middle for 0, then outwards by intensity
      towards the positive or the negative end. */
  function Rank(score: int): (r: nat)
    ensures r < |Scale|
    ensures score > 0 ==> r > 4
    ensures score < 0 ==> r < 4
  {
    if score >= 0 then 4 + Intensity(Abs(score)) else 4 - Intensity(Abs(score))
  }

  /** `emoji(forScore:)`: the face of the first matching arm, or the default face.
      It agrees with the reference: the face is the scale entry at `Rank`. */
  function Emoji(score: Int64): (face: string)
    ensures face == Scale[Rank(score)]
  {
    ArmOf(score);
    var k := FirstMatch(Arms, score);
    if k < |Arms| then Arms[k].face else Neutral
  }

  /** Every score maps to exactly one of the nine faces, at one position on the scale. */
  lemma EmojiOnScale(score: Int64)
    ensures Emoji(score) in Scale
    ensures forall i :: 0 <= i < |Scale| && Emoji(score) == Scale[i] ==> i == Rank(score)
  {
    ScaleDistinct();
  }

  /** A higher score never gets a sadder face. */
  lemma EmojiMonotone(a: Int64, b: Int64)
    requires a <= b
    ensures Rank(a) <= Rank(b)
    ensures forall i, j :: 0 <= i < |Scale| && 0 <= j < |Scale| && Emoji(a) == Scale[i] && Emoji(b) == Scale[j] ==> i <= j
  {
    EmojiOnScale(a);
    EmojiOnScale(b);
  }

  /** Negating a score mirrors its face across the neutral middle of the scale. */
  lemma EmojiMirror(score: Int64)
    requires IntMin < score
    ensures Emoji(-score) == Scale[|Scale| - 1 - Rank(score)]
  {
  }

  /** Each of the nine faces is the result for some score. */
  lemma EmojiOnto(i: nat)
    requires i < |Scale|
    ensures exists score: Int64 {:trigger Emoji(score)} :: Emoji(score) == Scale[i]
  {
    var score: Int64 := if i == 0 then -5 else if i == 8 then 5 else if i < 4 then i - 5 else if i == 4 then 0 else i - 3;
    assert Emoji(score) == Scale[i];
  }
}
