/** The decision engine of the daily report (lib/dailyReportDecision.ts):
    pollutant grades, the weather/profile adjustment, the ozone and infant
    policy overrides, and the three-tier reliability classification.
    The Seoul wall-clock hour and the `updatedAt` timestamp are parameters. */
module Decision {
  import opened JsValue
  import opened JsString

  /** A severity tier: 1 GOOD, 2 NORMAL, 3 BAD, 4 VERY_BAD. */
  type Grade = g: int | 1 <= g <= 4 witness 1

  datatype UiGrade = GOOD | NORMAL | BAD | VERY_BAD

  /** The numeric tier a UI grade stands for. */
  function UiRank(u: UiGrade): Grade
  {
    match u
    case GOOD => 1
    case NORMAL => 2
    case BAD => 3
    case VERY_BAD => 4
  }

  datatype ProfileInput = ProfileInput(ageGroup: Option<string>, condition: Option<string>)

  datatype Detail = Detail(pm10Grade: int, pm10: Option<real>, pm25Grade: int, pm25: Option<real>,
                           o3: Option<real>, no2: Option<real>)

  datatype AirQualityView = AirQualityView(
    stationName: string,
    sidoName: Option<string>,
    dataTime: Option<string>,
    grade: UiGrade,
    value: Option<real>,
    pm25: Option<real>,
    pm10: Option<real>,
    o3: Option<real>,
    no2: Option<real>,
    co: Option<real>,
    so2: Option<real>,
    temp: Option<real>,
    humidity: Option<real>,
    detail: Option<Detail>)

  datatype AiGuideView = AiGuideView(
    summary: Option<string>,
    detail: Option<string>,
    threeReason: Option<seq<string>>,
    detailAnswer: Option<string>,
    actionItems: Option<seq<string>>,
    activityRecommendation: Option<string>,
    maskRecommendation: Option<string>,
    references: Option<seq<string>>,
    pm25: Option<real>,
    o3: Option<real>,
    pm10: Option<real>,
    no2: Option<real>)

  /** The audit trail of one station-resolving fetch; `D` is the raw reading type. */
  datatype AirFetchResult<D> = AirFetchResult(
    data: Option<D>,
    resolvedStation: string,
    triedStations: seq<string>,
    usedFallbackCandidate: bool,
    usedFallbackData: bool,
    unknownSignatureCandidates: seq<string>)

  datatype DecisionSignals = DecisionSignals(
    pm25Grade: Grade,
    o3Grade: Grade,
    adjustedRiskGrade: Grade,
    finalGrade: UiGrade,
    o3IsDominantRisk: bool,
    o3OutingBanForced: bool,
    infantMaskBanApplied: bool,
    weatherAdjusted: bool,
    weatherAdjustmentReason: Option<string>)

  datatype Decision = Decision(airData: AirQualityView, aiGuide: AiGuideView, signals: DecisionSignals)

  // ------------------------------------------------------------ policy text

  const OzoneActionItem := "오후 2~5시 외출 금지"
  const OzoneMaskSentence := "오존은 가스성 오염물질이라 마스크로 충분히 걸러지지 않아요."
  const OzoneReason := "오존 농도가 높아 실외 활동 제한이 필요해요."
  const InfantMask := "마스크 착용 금지(영아)"
  const InfantActionItem := "영아는 마스크 대신 실내 공기질 관리에 집중"
  const InfantReason := "영아는 마스크 착용 시 질식 위험이 있어요."
  const OzoneWindowSummary := "오후 2~5시는 실내 활동이 더 안전해요"

  const ToddlerDryReason := "영유아 + 저습도(35% 미만)로 위험도를 1단계 상향했어요."
  const LowGradeTempReason := "초등 저학년 + 극단 기온으로 위험도를 1단계 상향했어요."
  const AsthmaColdReason := "천식 + 저온(5°C 미만)으로 위험도를 1단계 상향했어요."
  const RhinitisDryReason := "비염 + 건조(30% 미만)로 위험도를 1단계 상향했어요."
  const AtopyHotReason := "아토피 + 고온(30°C 초과)로 위험도를 1단계 상향했어요."

  // ----------------------------------------------------------------- grades

  function Dist(a: int, b: int): nat
  {
    if a <= b then b - a else a - b
  }

  /** Clamps any number into the grade range: the grade closest to `g`. */
  function ClampGrade(g: int): (r: Grade)
    ensures forall h: Grade :: Dist(r, g) <= Dist(h, g)
  {
    if g <= 1 then 1 else if g >= 4 then 4 else g
  }

  /** Maps a numeric grade, clamped first, to the UI grade. */
  function ToUiGrade(g: int): (r: UiGrade)
    ensures UiRank(r) == ClampGrade(g)
  {
    var safe := ClampGrade(g);
    if safe == 1 then GOOD
    else if safe == 2 then NORMAL
    else if safe == 3 then BAD
    else VERY_BAD
  }

  lemma UiGradeRoundTrip(u: UiGrade)
    ensures ToUiGrade(UiRank(u)) == u
  {
  }

  /** PM2.5 (µg/m³) grade; a missing or NaN reading is assumed moderate. */
  function Pm25Grade(v: Option<real>): (r: Grade)
    ensures v.None? ==> r == 2
    ensures r == 1 <==> v.Some? && v.value <= 15.0
    ensures r <= 2 <==> v.None? || v.value <= 35.0
    ensures r <= 3 <==> v.None? || v.value <= 75.0
  {
    match v
    case None => 2
    case Some(x) =>
      if x <= 15.0 then 1
      else if x <= 35.0 then 2
      else if x <= 75.0 then 3
      else 4
  }

  /** O₃ (ppm) grade; a missing or NaN reading is assumed moderate. */
  function O3Grade(v: Option<real>): (r: Grade)
    ensures v.None? ==> r == 2
    ensures r == 1 <==> v.Some? && v.value <= 0.03
    ensures r <= 2 <==> v.None? || v.value <= 0.09
    ensures r <= 3 <==> v.None? || v.value <= 0.15
  {
    match v
    case None => 2
    case Some(x) =>
      if x <= 0.03 then 1
      else if x <= 0.09 then 2
      else if x <= 0.15 then 3
      else 4
  }

  lemma Pm25GradeMonotone(v: real, w: real)
    requires v <= w
    ensures Pm25Grade(Some(v)) <= Pm25Grade(Some(w))
  {
  }

  lemma O3GradeMonotone(v: real, w: real)
    requires v <= w
    ensures O3Grade(Some(v)) <= O3Grade(Some(w))
  {
  }

  // ------------------------------------------------------------ append-only

  predicate NoDup<T(==)>(s: seq<T>)
  {
    forall i, j :: 0 <= i < j < |s| ==> s[i] != s[j]
  }

  /** Appends `next` unless it is already present. */
  function AppendUnique(items: seq<string>, next: string): (r: seq<string>)
    ensures items <= r
    ensures next in r
    ensures forall x :: x in r ==> x in items || x == next
    ensures next in items ==> r == items
    ensures NoDup(items) ==> NoDup(r)
  {
    if next in items then items else items + [next]
  }

  lemma AppendUniqueIdempotent(items: seq<string>, next: string)
    ensures AppendUnique(AppendUnique(items, next), next) == AppendUnique(items, next)
  {
  }

  // ----------------------------------------------------- weather adjustment

  datatype Adjustment = Adjustment(adjusted: Grade, reason: Option<string>)

  /** The effective age group: a missing or empty one counts as 'elementary_low'. */
  function AgeOf(p: ProfileInput): string
  {
    StrOr(p.ageGroup, "elementary_low")
  }

  /** The effective condition: a missing or empty one counts as 'none'. */
  function ConditionOf(p: ProfileInput): string
  {
    StrOr(p.condition, "none")
  }

  predicate Below(o: Option<real>, bound: real)
  {
    o.Some? && o.value < bound
  }

  predicate Above(o: Option<real>, bound: real)
  {
    o.Some? && o.value > bound
  }

  // The five weather rules, each stated on its own.
  predicate ToddlerDry(p: ProfileInput, humidity: Option<real>)
  {
    (AgeOf(p) == "infant" || AgeOf(p) == "toddler") && Below(humidity, 35.0)
  }

  predicate LowGradeExtremeTemp(p: ProfileInput, temp: Option<real>)
  {
    AgeOf(p) == "elementary_low" && temp.Some? && (temp.value >= 30.0 || temp.value <= 2.0)
  }

  predicate AsthmaCold(p: ProfileInput, temp: Option<real>)
  {
    ConditionOf(p) == "asthma" && Below(temp, 5.0)
  }

  predicate RhinitisDry(p: ProfileInput, humidity: Option<real>)
  {
    ConditionOf(p) == "rhinitis" && Below(humidity, 30.0)
  }

  predicate AtopyHot(p: ProfileInput, temp: Option<real>)
  {
    ConditionOf(p) == "atopy" && Above(temp, 30.0)
  }

  predicate AgeRuleFires(p: ProfileInput, temp: Option<real>, humidity: Option<real>)
  {
    ToddlerDry(p, humidity) || LowGradeExtremeTemp(p, temp)
  }

  predicate ConditionRuleFires(p: ProfileInput, temp: Option<real>, humidity: Option<real>)
  {
    AsthmaCold(p, temp) || RhinitisDry(p, humidity) || AtopyHot(p, temp)
  }

  function Steps(b: bool): nat
  {
    if b then 1 else 0
  }

  /** Raises the base risk by one step for the age rule and one more for the
      condition rule, then clamps; the condition rule's reason replaces the
      age rule's. */
  function ApplyWeatherAdjustment(base: int, p: ProfileInput, temp: Option<real>, humidity: Option<real>): (r: Adjustment)
    ensures 1 <= base <= 4 ==> base <= r.adjusted <= base + 2
  {
    var ageGroup := AgeOf(p);
    var condition := ConditionOf(p);
    var (a1, r1) :=
      if (ageGroup == "infant" || ageGroup == "toddler") && humidity.Some? && humidity.value < 35.0 then
        (base + 1, Some(ToddlerDryReason))
      else if ageGroup == "elementary_low" && temp.Some? && (temp.value >= 30.0 || temp.value <= 2.0) then
        (base + 1, Some(LowGradeTempReason))
      else (base, None);
    var (a2, r2) :=
      if condition == "asthma" && temp.Some? && temp.value < 5.0 then
        (a1 + 1, Some(AsthmaColdReason))
      else if condition == "rhinitis" && humidity.Some? && humidity.value < 30.0 then
        (a1 + 1, Some(RhinitisDryReason))
      else if condition == "atopy" && temp.Some? && temp.value > 30.0 then
        (a1 + 1, Some(AtopyHotReason))
      else (a1, r1);
    Adjustment(ClampGrade(a2), r2)
  }

  /** Each reason is reported exactly when its rule fires, a condition reason replacing an age reason. */
  lemma WeatherReasons(base: int, p: ProfileInput, temp: Option<real>, humidity: Option<real>)
    ensures var r := ApplyWeatherAdjustment(base, p, temp, humidity);
      && (r.reason.None? <==> !AgeRuleFires(p, temp, humidity) && !ConditionRuleFires(p, temp, humidity))
      && (r.reason == Some(AsthmaColdReason) <==> AsthmaCold(p, temp))
      && (r.reason == Some(RhinitisDryReason) <==> RhinitisDry(p, humidity))
      && (r.reason == Some(AtopyHotReason) <==> AtopyHot(p, temp))
      && (r.reason == Some(ToddlerDryReason) <==> ToddlerDry(p, humidity) && !ConditionRuleFires(p, temp, humidity))
      && (r.reason == Some(LowGradeTempReason) <==> LowGradeExtremeTemp(p, temp) && !ConditionRuleFires(p, temp, humidity))
  {
  }

  /** One step per rule family that fires, clamped at the worst grade. */
  lemma WeatherSteps(base: int, p: ProfileInput, temp: Option<real>, humidity: Option<real>)
    requires 1 <= base <= 4
    ensures ApplyWeatherAdjustment(base, p, temp, humidity).adjusted
         == Min(4, base + Steps(AgeRuleFires(p, temp, humidity)) + Steps(ConditionRuleFires(p, temp, humidity)))
  {
  }

  function Min(a: int, b: int): int
  {
    if a <= b then a else b
  }

  function Max(a: int, b: int): int
  {
    if a >= b then a else b
  }

  /** At most one age rule and at most one condition rule can hold at once. */
  lemma RulesExclusive(p: ProfileInput, temp: Option<real>, humidity: Option<real>)
    ensures !(ToddlerDry(p, humidity) && LowGradeExtremeTemp(p, temp))
    ensures !(AsthmaCold(p, temp) && RhinitisDry(p, humidity))
    ensures !(AsthmaCold(p, temp) && AtopyHot(p, temp))
    ensures !(RhinitisDry(p, humidity) && AtopyHot(p, temp))
  {
  }

  /** A worse base risk never yields a better adjusted grade. */
  lemma WeatherAdjustmentMonotone(b1: int, b2: int, p: ProfileInput, temp: Option<real>, humidity: Option<real>)
    requires 1 <= b1 <= b2 <= 4
    ensures ApplyWeatherAdjustment(b1, p, temp, humidity).adjusted <= ApplyWeatherAdjustment(b2, p, temp, humidity).adjusted
  {
  }

  // ------------------------------------------------------------ the engine

  /** `[detailAnswer || detail, OzoneMaskSentence].filter(Boolean).join(' ')`. */
  function OzoneDetailAnswer(g: AiGuideView): (r: string)
    ensures EndsWith(r, OzoneMaskSentence)
    ensures StrTruthy(g.detailAnswer) ==> r == g.detailAnswer.value + " " + OzoneMaskSentence
    ensures !StrTruthy(g.detailAnswer) && StrTruthy(g.detail) ==> r == g.detail.value + " " + OzoneMaskSentence
    ensures !StrTruthy(g.detailAnswer) && !StrTruthy(g.detail) ==> r == OzoneMaskSentence
  {
    var head := if StrTruthy(g.detailAnswer) then g.detailAnswer.value
                else if StrTruthy(g.detail) then g.detail.value
                else "";
    if head == "" then OzoneMaskSentence else head + " " + OzoneMaskSentence
  }

  predicate InO3RiskWindow(hour: int)
  {
    14 <= hour < 17
  }

  /** The entries a list gained, none of them already there and none twice. */
  predicate FreshTail(before: seq<string>, after: seq<string>)
  {
    before <= after
    && NoDup(after[|before|..])
    && forall x :: x in after[|before|..] ==> x !in before
  }

  /** The numeric side of `deriveDecisionSignals`: grades, the weather step and the policy flags. */
  function DecideSignals(air: AirQualityView, p: ProfileInput): (s: DecisionSignals)
    ensures s.pm25Grade == Pm25Grade(air.pm25) && s.o3Grade == O3Grade(air.o3)
    ensures s.adjustedRiskGrade >= Max(s.pm25Grade, s.o3Grade)
    ensures s.pm25Grade >= 3 && s.o3Grade >= 3 ==> s.adjustedRiskGrade == 4
    ensures UiRank(s.finalGrade) == s.adjustedRiskGrade
    ensures s.o3OutingBanForced <==> s.o3Grade >= 3
    ensures s.o3IsDominantRisk <==> s.o3Grade >= 3 && s.o3Grade >= s.pm25Grade
    ensures s.infantMaskBanApplied <==> p.ageGroup == Some("infant")
    ensures s.weatherAdjusted <==> s.weatherAdjustmentReason.Some?
    ensures s.weatherAdjustmentReason
         == ApplyWeatherAdjustment(Max(s.pm25Grade, s.o3Grade), p, air.temp, air.humidity).reason
    ensures !(s.pm25Grade >= 3 && s.o3Grade >= 3) ==>
      s.adjustedRiskGrade == ApplyWeatherAdjustment(Max(s.pm25Grade, s.o3Grade), p, air.temp, air.humidity).adjusted
  {
    var pm25Grade := Pm25Grade(air.pm25);
    var o3Grade := O3Grade(air.o3);
    var baseRisk := Max(pm25Grade, o3Grade);
    var weather := ApplyWeatherAdjustment(baseRisk, p, air.temp, air.humidity);
    var finalNumericGrade: Grade := if pm25Grade >= 3 && o3Grade >= 3 then 4 else weather.adjusted;
    var finalGrade := ToUiGrade(finalNumericGrade);
    DecisionSignals(pm25Grade, o3Grade, finalNumericGrade, finalGrade, o3Grade >= 3 && o3Grade >= pm25Grade,
                    o3Grade >= 3, p.ageGroup == Some("infant"), weather.reason.Some?, weather.reason)
  }

  /** The guide side of `deriveDecisionSignals`: the ozone, infant and weather
      blocks append to copies of the lists, and the ozone window replaces the summary. */
  function AmendGuide(guide: AiGuideView, s: DecisionSignals, hour: int): (g: AiGuideView)
    // append-only lists
    ensures g.actionItems.Some? && g.threeReason.Some?
    ensures FreshTail(OrEmpty(guide.actionItems), g.actionItems.value)
    ensures FreshTail(OrEmpty(guide.threeReason), g.threeReason.value)
    // ozone policy
    ensures s.o3OutingBanForced ==>
      OzoneActionItem in g.actionItems.value && OzoneReason in g.threeReason.value
      && g.detailAnswer.Some? && Contains(g.detailAnswer.value, OzoneMaskSentence)
    ensures s.o3OutingBanForced ==> g.detailAnswer == Some(OzoneDetailAnswer(guide))
    ensures !s.o3OutingBanForced ==> g.detailAnswer == guide.detailAnswer
    ensures g.summary == (if s.o3IsDominantRisk && InO3RiskWindow(hour) then Some(OzoneWindowSummary) else guide.summary)
    // infant policy
    ensures s.infantMaskBanApplied ==>
      g.maskRecommendation == Some(InfantMask) && InfantActionItem in g.actionItems.value
      && InfantReason in g.threeReason.value
    ensures !s.infantMaskBanApplied ==> g.maskRecommendation == guide.maskRecommendation
    // weather reason
    ensures s.weatherAdjustmentReason.Some? ==> s.weatherAdjustmentReason.value in g.threeReason.value
    // nothing else changes
    ensures g.detail == guide.detail && g.activityRecommendation == guide.activityRecommendation
    ensures g.references == guide.references
    ensures g.pm25 == guide.pm25 && g.o3 == guide.o3 && g.pm10 == guide.pm10 && g.no2 == guide.no2
  {
    var items0 := OrEmpty(guide.actionItems);
    var reasons0 := OrEmpty(guide.threeReason);

    var items1 := if s.o3OutingBanForced then AppendUnique(items0, OzoneActionItem) else items0;
    var answer1 := if s.o3OutingBanForced then Some(OzoneDetailAnswer(guide)) else guide.detailAnswer;
    var reasons1 := if s.o3OutingBanForced then AppendUnique(reasons0, OzoneReason) else reasons0;

    var mask2 := if s.infantMaskBanApplied then Some(InfantMask) else guide.maskRecommendation;
    var items2 := if s.infantMaskBanApplied then AppendUnique(items1, InfantActionItem) else items1;
    var reasons2 := if s.infantMaskBanApplied then AppendUnique(reasons1, InfantReason) else reasons1;

    var reasons3 :=
      if s.weatherAdjustmentReason.Some? then AppendUnique(reasons2, s.weatherAdjustmentReason.value) else reasons2;

    var summary := if s.o3IsDominantRisk && InO3RiskWindow(hour) then Some(OzoneWindowSummary) else guide.summary;

    FreshTailAppend(items0, items1, items2);
    FreshTailAppend3(reasons0, reasons1, reasons2, reasons3);
    OzoneSentenceContained(guide);

    guide.(actionItems := Some(items2), threeReason := Some(reasons3), detailAnswer := answer1,
           maskRecommendation := mask2, summary := summary)
  }

  /** The only entries the amendment adds are the policy texts of the
      policies that apply and the weather reason. */
  lemma AmendGuideAddsOnlyPolicyEntries(guide: AiGuideView, s: DecisionSignals, hour: int)
    ensures var g := AmendGuide(guide, s, hour);
      && (forall x :: x in g.actionItems.value ==>
            || x in OrEmpty(guide.actionItems)
            || (s.o3OutingBanForced && x == OzoneActionItem)
            || (s.infantMaskBanApplied && x == InfantActionItem))
      && (forall x :: x in g.threeReason.value ==>
            || x in OrEmpty(guide.threeReason)
            || (s.o3OutingBanForced && x == OzoneReason)
            || (s.infantMaskBanApplied && x == InfantReason)
            || Some(x) == s.weatherAdjustmentReason)
  {
  }

  /** A policy that does not apply leaves its texts as they were: each is
      present afterwards exactly when it was before (for a reason, unless it
      is the weather reason itself). */
  lemma AmendGuideKeepsInactivePolicies(guide: AiGuideView, s: DecisionSignals, hour: int)
    ensures var g := AmendGuide(guide, s, hour);
      && (!s.o3OutingBanForced ==>
            (OzoneActionItem in g.actionItems.value <==> OzoneActionItem in OrEmpty(guide.actionItems)))
      && (!s.infantMaskBanApplied ==>
            (InfantActionItem in g.actionItems.value <==> InfantActionItem in OrEmpty(guide.actionItems)))
      && (!s.o3OutingBanForced && s.weatherAdjustmentReason != Some(OzoneReason) ==>
            (OzoneReason in g.threeReason.value <==> OzoneReason in OrEmpty(guide.threeReason)))
      && (!s.infantMaskBanApplied && s.weatherAdjustmentReason != Some(InfantReason) ==>
            (InfantReason in g.threeReason.value <==> InfantReason in OrEmpty(guide.threeReason)))
  {
    AmendGuideAddsOnlyPolicyEntries(guide, s, hour);
  }

  /** `deriveDecisionSignals`: the air view takes the final grade, the guide is amended by the signals. */
  function DeriveDecisionSignals(air: AirQualityView, guide: AiGuideView, p: ProfileInput, hour: int): (d: Decision)
    ensures d.signals == DecideSignals(air, p)
    ensures d.airData == air.(grade := d.signals.finalGrade)
    ensures d.aiGuide == AmendGuide(guide, d.signals, hour)
  {
    var s := DecideSignals(air, p);
    Decision(air.(grade := s.finalGrade), AmendGuide(guide, s, hour), s)
  }

  lemma OzoneSentenceContained(g: AiGuideView)
    ensures Contains(OzoneDetailAnswer(g), OzoneMaskSentence)
  {
    var r := OzoneDetailAnswer(g);
    assert OccursAt(r, OzoneMaskSentence, |r| - |OzoneMaskSentence|);
  }

  /** Two rounds of `AppendUnique` (or none) only add fresh entries. */
  lemma FreshTailAppend(a: seq<string>, b: seq<string>, c: seq<string>)
    requires b == a || exists x :: b == AppendUnique(a, x)
    requires c == b || exists y :: c == AppendUnique(b, y)
    ensures FreshTail(a, c)
  {
    assert a <= b <= c;
    assert |c| <= |a| + 2;
    var t := c[|a|..];
    forall i, j | 0 <= i < j < |t|
      ensures t[i] != t[j]
    {
      assert |a| + i < |b|;
      assert t[j] == c[|a| + j] && |a| + j == |b|;
    }
  }

  lemma FreshTailAppend3(a: seq<string>, b: seq<string>, c: seq<string>, e: seq<string>)
    requires b == a || exists x :: b == AppendUnique(a, x)
    requires c == b || exists y :: c == AppendUnique(b, y)
    requires e == c || exists z :: e == AppendUnique(c, z)
    ensures FreshTail(a, e)
  {
    FreshTailAppend(a, b, c);
    assert a <= c <= e;
    var t := e[|a|..];
    forall i, j | 0 <= i < j < |t|
      ensures t[i] != t[j]
    {
      if |a| + j >= |c| {
        assert |a| + j == |c|;
        assert t[j] !in c;
        assert t[i] == c[|a| + i];
      } else {
        assert t[i] == c[|a|..][i] && t[j] == c[|a|..][j];
      }
    }
  }

  /** Raising the PM2.5 reading never lowers the adjusted risk grade. */
  lemma {:induction false} AdjustedRiskMonotoneInPm25(air: AirQualityView, p: ProfileInput, v: real, w: real)
    requires v <= w
    ensures DecideSignals(air.(pm25 := Some(v)), p).adjustedRiskGrade
         <= DecideSignals(air.(pm25 := Some(w)), p).adjustedRiskGrade
  {
    Pm25GradeMonotone(v, w);
    var b1 := Max(Pm25Grade(Some(v)), O3Grade(air.o3));
    var b2 := Max(Pm25Grade(Some(w)), O3Grade(air.o3));
    WeatherAdjustmentMonotone(b1, b2, p, air.temp, air.humidity);
  }

  /** Raising the ozone reading never lowers the adjusted risk grade. */
  lemma {:induction false} AdjustedRiskMonotoneInO3(air: AirQualityView, p: ProfileInput, v: real, w: real)
    requires v <= w
    ensures DecideSignals(air.(o3 := Some(v)), p).adjustedRiskGrade
         <= DecideSignals(air.(o3 := Some(w)), p).adjustedRiskGrade
  {
    O3GradeMonotone(v, w);
    var b1 := Max(Pm25Grade(air.pm25), O3Grade(Some(v)));
    var b2 := Max(Pm25Grade(air.pm25), O3Grade(Some(w)));
    WeatherAdjustmentMonotone(b1, b2, p, air.temp, air.humidity);
  }

  /** A condition rule that fires raises the risk by at least one grade, up
      to 4, and is reported. */
  lemma ConditionRuleRaisesRisk(air: AirQualityView, p: ProfileInput)
    requires ConditionRuleFires(p, air.temp, air.humidity)
    ensures DecideSignals(air, p).adjustedRiskGrade >= Min(4, Max(Pm25Grade(air.pm25), O3Grade(air.o3)) + 1)
    ensures DecideSignals(air, p).weatherAdjusted
  {
    WeatherSteps(Max(Pm25Grade(air.pm25), O3Grade(air.o3)), p, air.temp, air.humidity);
    WeatherReasons(Max(Pm25Grade(air.pm25), O3Grade(air.o3)), p, air.temp, air.humidity);
  }

  /** Rhinitis at 25% humidity with moderate readings: the grade goes from 2
      to at least 3 and the rhinitis reason is given. */
  lemma RhinitisDryExample(air: AirQualityView)
    requires air.pm25 == Some(20.0) && air.o3 == Some(0.05) && air.humidity == Some(25.0)
    ensures DecideSignals(air, ProfileInput(Some("elementary_low"), Some("rhinitis"))).adjustedRiskGrade >= 3
    ensures DecideSignals(air, ProfileInput(Some("elementary_low"), Some("rhinitis"))).weatherAdjustmentReason
         == Some(RhinitisDryReason)
  {
    ConditionRuleRaisesRisk(air, ProfileInput(Some("elementary_low"), Some("rhinitis")));
    WeatherReasons(2, ProfileInput(Some("elementary_low"), Some("rhinitis")), air.temp, air.humidity);
  }

  // ------------------------------------------------------------ reliability

  datatype ReliabilityStatus = LIVE | STATION_FALLBACK | DEGRADED
  datatype AiStatus = AiOk | AiFailed

  datatype ReliabilityMeta = ReliabilityMeta(
    status: ReliabilityStatus,
    statusLabel: string,
    description: string,
    requestedStation: string,
    resolvedStation: string,
    triedStations: seq<string>,
    updatedAt: string,
    aiStatus: AiStatus)

  function StatusLabel(s: ReliabilityStatus): string
  {
    match s
    case DEGRADED => "주변 평균 대체 데이터"
    case STATION_FALLBACK => "인근 측정소 자동 보정"
    case LIVE => "최근 1시간 기준 실측 데이터"
  }

  function StatusDescription(s: ReliabilityStatus): string
  {
    match s
    case DEGRADED => "실측 매칭에 실패해 주변 평균 대체 데이터를 안내하고 있어요."
    case STATION_FALLBACK => "입력 주소와 인접한 유효 측정소의 최근 1시간 기준 실측값으로 자동 보정했어요."
    case LIVE => "현재 선택한 지역 측정소의 최근 1시간 기준 실측값을 반영했어요."
  }

  /** Classifies a fetch outcome; `updatedAt` is the current time, supplied by the caller. */
  function BuildReliabilityMeta<D>(requestedStation: string, airFetch: AirFetchResult<D>, aiOk: bool,
                                   updatedAt: string): (m: ReliabilityMeta)
    ensures m.status == DEGRADED <==> airFetch.usedFallbackData || airFetch.data.None?
    ensures m.status == STATION_FALLBACK <==>
      !airFetch.usedFallbackData && airFetch.data.Some? && airFetch.usedFallbackCandidate
    ensures m.status == LIVE <==>
      !airFetch.usedFallbackData && airFetch.data.Some? && !airFetch.usedFallbackCandidate
    ensures m.statusLabel == StatusLabel(m.status) && m.description == StatusDescription(m.status)
    ensures m.aiStatus == AiOk <==> aiOk
    ensures m.requestedStation == requestedStation && m.updatedAt == updatedAt
    ensures m.resolvedStation == airFetch.resolvedStation && m.triedStations == airFetch.triedStations
  {
    var aiStatus := if aiOk then AiOk else AiFailed;
    if airFetch.usedFallbackData || airFetch.data.None? then
      ReliabilityMeta(DEGRADED, "주변 평균 대체 데이터",
                      "실측 매칭에 실패해 주변 평균 대체 데이터를 안내하고 있어요.",
                      requestedStation, airFetch.resolvedStation, airFetch.triedStations, updatedAt, aiStatus)
    else if airFetch.usedFallbackCandidate then
      ReliabilityMeta(STATION_FALLBACK, "인근 측정소 자동 보정",
                      "입력 주소와 인접한 유효 측정소의 최근 1시간 기준 실측값으로 자동 보정했어요.",
                      requestedStation, airFetch.resolvedStation, airFetch.triedStations, updatedAt, aiStatus)
    else
      ReliabilityMeta(LIVE, "최근 1시간 기준 실측 데이터",
                      "현재 선택한 지역 측정소의 최근 1시간 기준 실측값을 반영했어요.",
                      requestedStation, airFetch.resolvedStation, airFetch.triedStations, updatedAt, aiStatus)
  }

  /** The AI flag never changes the tier, and the tier never changes the AI flag. */
  lemma ReliabilityAxesOrthogonal<D>(requestedStation: string, airFetch: AirFetchResult<D>, updatedAt: string)
    ensures BuildReliabilityMeta(requestedStation, airFetch, true, updatedAt).status
         == BuildReliabilityMeta(requestedStation, airFetch, false, updatedAt).status
  {
  }
}
