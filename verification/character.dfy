/** The character-asset mapping (lib/characterUtils.ts): an air-quality grade
    becomes a letter A–D, an age group a digit 1–5, and the pair names one of
    twenty character pictures; the grade letter also picks a background
    colour and a Korean label. */
module CharacterUtils {
  import opened JsValue
  import opened Decision

  // ------------------------------------------------------------ upper case

  /** `toUpperCase` on one code point, for the ASCII letters. */
  function AsciiUpper(c: char): (u: char)
    ensures 'a' <= c <= 'z' ==> u as int == c as int - 32
    ensures !('a' <= c <= 'z') ==> u == c
    ensures !('a' <= u <= 'z')
  {
    if 'a' <= c <= 'z' then (c as int - 32) as char else c
  }

  function ToUpper(s: string): (r: string)
    ensures |r| == |s|
    ensures forall i :: 0 <= i < |s| ==> r[i] == AsciiUpper(s[i])
  {
    if s == [] then [] else [AsciiUpper(s[0])] + ToUpper(s[1..])
  }

  /** Upper-casing an upper-cased string changes nothing. */
  lemma {:induction false} ToUpperIdempotent(s: string)
    ensures ToUpper(ToUpper(s)) == ToUpper(s)
  {
    if s != [] {
      ToUpperIdempotent(s[1..]);
      assert ToUpper(s)[1..] == ToUpper(s[1..]);
    }
  }

  /** A string without lower-case ASCII letters is its own upper case. */
  lemma UpperFixed(s: string)
    requires forall i :: 0 <= i < |s| ==> !('a' <= s[i] <= 'z')
    ensures ToUpper(s) == s
  {
    assert forall i :: 0 <= i < |s| ==> ToUpper(s)[i] == s[i];
  }

  // ------------------------------------------------------------ grade code

  /** `getGradeCode`: case-insensitive; a missing, empty or unknown grade is 'B'. */
  function GradeCode(grade: Option<string>): (c: char)
    ensures c == 'A' <==> grade.Some? && ToUpper(grade.value) == "GOOD"
    ensures c == 'C' <==> grade.Some? && ToUpper(grade.value) == "BAD"
    ensures c == 'D' <==> grade.Some? && ToUpper(grade.value) == "VERY_BAD"
    ensures c == 'A' || c == 'B' || c == 'C' || c == 'D'
  {
    if !StrTruthy(grade) then 'B'
    else
      match ToUpper(grade.value)
      case "GOOD" => 'A'
      case "NORMAL" => 'B'
      case "BAD" => 'C'
      case "VERY_BAD" => 'D'
      case _ => 'B'
  }

  /** The letters ignore case. */
  lemma GradeCodeIgnoresCase(g: string)
    ensures GradeCode(Some(ToUpper(g))) == GradeCode(Some(g))
  {
    ToUpperIdempotent(g);
  }

  /** The name the API uses for a UI grade. */
  function UiGradeName(u: UiGrade): string
  {
    match u
    case GOOD => "GOOD"
    case NORMAL => "NORMAL"
    case BAD => "BAD"
    case VERY_BAD => "VERY_BAD"
  }

  /** The four grades the API emits get the four letters in severity order. */
  lemma GradeCodeFollowsSeverity(u: UiGrade)
    ensures GradeCode(Some(UiGradeName(u))) as int - 'A' as int == UiRank(u) - 1
  {
    match u
    case GOOD => assert GradeCode(Some("GOOD")) == 'A' by { UpperFixed("GOOD"); }
    case NORMAL => assert GradeCode(Some("NORMAL")) == 'B' by { UpperFixed("NORMAL"); }
    case BAD => assert GradeCode(Some("BAD")) == 'C' by { UpperFixed("BAD"); }
    case VERY_BAD => assert GradeCode(Some("VERY_BAD")) == 'D' by { UpperFixed("VERY_BAD"); }
  }

  // -------------------------------------------------------------- age code

  /** `getAgeCode`: case-sensitive; a missing, empty or unknown group is '5'. */
  function AgeCode(ageGroup: Option<string>): (c: char)
    ensures '1' <= c <= '5'
    ensures c == '1' <==> ageGroup == Some("infant")
    ensures c == '2' <==> ageGroup == Some("toddler")
    ensures c == '3' <==> ageGroup == Some("elementary_low")
    ensures c == '4' <==> ageGroup == Some("elementary_high")
  {
    if !StrTruthy(ageGroup) then '5'
    else
      match ageGroup.value
      case "infant" => '1'
      case "toddler" => '2'
      case "elementary_low" => '3'
      case "elementary_high" => '4'
      case "teen_adult" => '5'
      case _ => '5'
  }

  // ------------------------------------------------------------------ path

  const PathPrefix: string := "/Character/"
  const PathSuffix: string := ".svg"

  /** `getCharacterPath`. */
  function CharacterPath(grade: Option<string>, ageGroup: Option<string>): (p: string)
    ensures |p| == |PathPrefix| + 2 + |PathSuffix|
    ensures p[..|PathPrefix|] == PathPrefix && p[|PathPrefix| + 2..] == PathSuffix
    ensures p[|PathPrefix|] == GradeCode(grade) && p[|PathPrefix| + 1] == AgeCode(ageGroup)
  {
    PathPrefix + [GradeCode(grade), AgeCode(ageGroup)] + PathSuffix
  }

  /** The picture name determines both codes, so two inputs share a picture
      exactly when they share the grade letter and the age digit. */
  lemma CharacterPathDecodes(g1: Option<string>, a1: Option<string>, g2: Option<string>, a2: Option<string>)
    ensures CharacterPath(g1, a1) == CharacterPath(g2, a2)
        <==> GradeCode(g1) == GradeCode(g2) && AgeCode(a1) == AgeCode(a2)
  {
    if CharacterPath(g1, a1) == CharacterPath(g2, a2) {
      assert CharacterPath(g1, a1)[|PathPrefix|] == CharacterPath(g2, a2)[|PathPrefix|];
    }
  }

  lemma CharacterPathExample()
    ensures CharacterPath(Some("GOOD"), Some("toddler")) == "/Character/A2.svg"
  {
    assert GradeCode(Some("GOOD")) == 'A' by {
      assert ToUpper("GOOD") == "GOOD";
    }
  }

  lemma LowerCaseGradeExample()
    ensures CharacterPath(Some("very_bad"), None) == "/Character/D5.svg"
  {
    assert GradeCode(Some("very_bad")) == 'D' by {
      assert ToUpper("very_bad") == "VERY_BAD";
    }
  }

  // -------------------------------------------------------- colour, label

  /** `getGradeBackgroundColor`: a pastel per grade letter, lemon for 'B'. */
  function GradeBackgroundColor(grade: Option<string>): (c: string)
    ensures GradeCode(grade) == 'A' <==> c == "bg-[#E6F4F1]"
    ensures GradeCode(grade) == 'B' <==> c == "bg-[#FFF9E5]"
    ensures GradeCode(grade) == 'C' <==> c == "bg-[#FFEDE0]"
    ensures GradeCode(grade) == 'D' <==> c == "bg-[#FCE8F3]"
  {
    match GradeCode(grade)
    case 'A' => "bg-[#E6F4F1]"
    case 'B' => "bg-[#FFF9E5]"
    case 'C' => "bg-[#FFEDE0]"
    case 'D' => "bg-[#FCE8F3]"
    case _ => "bg-[#FFF9E5]"
  }

  /** `getGradeLabel`: the Korean word per grade letter, '보통' for 'B'. */
  function GradeLabel(grade: Option<string>): (l: string)
    ensures GradeCode(grade) == 'A' <==> l == "좋음"
    ensures GradeCode(grade) == 'B' <==> l == "보통"
    ensures GradeCode(grade) == 'C' <==> l == "나쁨"
    ensures GradeCode(grade) == 'D' <==> l == "매우 나쁨"
  {
    match GradeCode(grade)
    case 'A' => "좋음"
    case 'B' => "보통"
    case 'C' => "나쁨"
    case 'D' => "매우 나쁨"
    case _ => "보통"
  }

  /** Label and colour depend on the grade only through its letter. */
  lemma StylingFollowsGradeCode(g1: Option<string>, g2: Option<string>)
    requires GradeCode(g1) == GradeCode(g2)
    ensures GradeLabel(g1) == GradeLabel(g2)
    ensures GradeBackgroundColor(g1) == GradeBackgroundColor(g2)
  {
  }

  /** An unknown grade is shown as moderate. */
  lemma UnknownGradeIsModerate(g: string)
    requires ToUpper(g) != "GOOD" && ToUpper(g) != "BAD" && ToUpper(g) != "VERY_BAD"
    ensures GradeLabel(Some(g)) == "보통" && GradeBackgroundColor(Some(g)) == "bg-[#FFF9E5]"
  {
  }
}
