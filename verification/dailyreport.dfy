/** The daily-report route (app/api/daily-report/route.ts): request defaults,
    the profile mapping sent to the advice service, the transforms of the
    reading and of the advice, the fallbacks used when either service fails,
    and the numeric backfill of the reading from the advice. Both upstream
    services are parameters; the clock is the `now` parameter. */
module DailyReport {
  import opened JsValue
  import opened JsString
  import opened Decision
  import opened AirQualityLatest

  const DefaultStation: string := "강남구"

  /** The profile assumed when the request carries none. */
  const DefaultProfile: ProfileInput := ProfileInput(Some("child_low"), Some("normal"))

  const DefaultAiAge: string := "elementary_low"

  // ------------------------------------------------------- profile mapping

  /** The profile in the advice service's vocabulary. */
  datatype AiProfile = AiProfile(ageGroup: string, condition: string)

  /** The four conditions the advice service knows. */
  predicate AiCondition(c: string)
  {
    c == "general" || c == "asthma" || c == "rhinitis" || c == "atopy"
  }

  /** A condition that is passed through unchanged. */
  predicate PassedCondition(c: Option<string>)
  {
    c == Some("asthma") || c == Some("rhinitis") || c == Some("atopy")
  }

  /** `mapProfileToAiSchema`: the age group is passed through with a default,
      the three named conditions are passed through and anything else
      (`none`, an unknown word, a missing value) becomes `general`. */
  function MapProfileToAiSchema(p: ProfileInput): (r: AiProfile)
    ensures r.ageGroup != ""
    ensures StrTruthy(p.ageGroup) ==> r.ageGroup == p.ageGroup.value
    ensures !StrTruthy(p.ageGroup) ==> r.ageGroup == DefaultAiAge
    ensures AiCondition(r.condition)
    ensures r.condition != "general" <==> PassedCondition(p.condition)
    ensures PassedCondition(p.condition) ==> p.condition == Some(r.condition)
  {
    var aiAge := StrOr(p.ageGroup, DefaultAiAge);
    var aiCondition :=
      if p.condition == Some("asthma") then "asthma"
      else if p.condition == Some("rhinitis") then "rhinitis"
      else if p.condition == Some("atopy") then "atopy"
      else if p.condition == Some("none") then "general"
      else "general";
    AiProfile(aiAge, aiCondition)
  }

  /** Mapping an already mapped profile again changes nothing. */
  lemma AiSchemaIdempotent(p: ProfileInput)
    ensures var r := MapProfileToAiSchema(p);
      MapProfileToAiSchema(ProfileInput(Some(r.ageGroup), Some(r.condition))) == r
  {
  }

  // --------------------------------------------------------------- request

  /** The JSON body of the request; absent or `null` fields are `None`. */
  datatype ReportRequest = ReportRequest(stationName: Option<string>, profile: Option<ProfileInput>)

  /** `stationName || '강남구'`. */
  function TargetStation(req: ReportRequest): (s: string)
    ensures s != ""
    ensures StrTruthy(req.stationName) ==> s == req.stationName.value
    ensures !StrTruthy(req.stationName) ==> s == DefaultStation
  {
    StrOr(req.stationName, DefaultStation)
  }

  /** `mapProfileToAiSchema(profile || default)`: any profile object is truthy. */
  function AiProfileOf(req: ReportRequest): (a: AiProfile)
    ensures req.profile.Some? ==> a == MapProfileToAiSchema(req.profile.value)
    ensures req.profile.None? ==> a == AiProfile("child_low", "general")
  {
    MapProfileToAiSchema(Coalesce(req.profile, DefaultProfile))
  }

  // -------------------------------------------------------------- reading

  /** The reading as the route reshapes it: no province, time, CO, SO2,
      temperature or humidity is carried. */
  function TransformAir(raw: RawAirReading, target: string): (v: AirQualityView)
    ensures v.stationName == StrOr(raw.stationName, target)
    ensures UiRank(v.grade) == Max(GradeScore(raw.pm10Grade), GradeScore(raw.pm25Grade))
    ensures v.value == raw.pm10 && v.pm25 == raw.pm25 && v.pm10 == raw.pm10
    ensures v.o3 == raw.o3 && v.no2 == raw.no2
    ensures v.sidoName.None? && v.dataTime.None? && v.co.None? && v.so2.None?
    ensures v.temp.None? && v.humidity.None?
    ensures v.detail.Some? && v.detail.value.pm10Grade == GradeScore(raw.pm10Grade)
    ensures v.detail.Some? && v.detail.value.pm25Grade == GradeScore(raw.pm25Grade)
  {
    var pm10Grade := GradeScore(raw.pm10Grade);
    var pm25Grade := GradeScore(raw.pm25Grade);
    AirQualityView(
      StrOr(raw.stationName, target), None, None, WorstUiGrade(pm10Grade, pm25Grade),
      raw.pm10, raw.pm25, raw.pm10, raw.o3, raw.no2, None, None, None, None,
      Some(Detail(pm10Grade, raw.pm10, pm25Grade, raw.pm25, raw.o3, raw.no2)))
  }

  /** The two routes reshape a reading alike, apart from the fields this one drops. */
  lemma TransformAgreesWithLatestRoute(raw: RawAirReading, target: string)
    ensures TransformAir(raw, target)
      == ToViewAirData(Some(raw), target).(sidoName := None, dataTime := None, co := None, so2 := None,
                                           temp := None, humidity := None)
  {
  }

  /** The placeholder shown when no reading arrived. */
  function MissingAir(target: string): (v: AirQualityView)
    ensures v.stationName == target && v.grade == NORMAL && v.detail.None?
    ensures v.pm25.None? && v.o3.None? && v.pm10.None? && v.no2.None? && v.value.None?
  {
    AirQualityView(target, None, None, NORMAL, None, None, None, None, None, None, None, None, None, None)
  }

  /** The reading of one air-service answer, with the station name filled in. */
  function AirOf(resp: Response<RawAirReading>, target: string): (v: AirQualityView)
    requires target != ""
    ensures v.stationName != ""
    ensures !Parsed(resp) ==> v == MissingAir(target)
    ensures Parsed(resp) ==> v.stationName == StrOr(resp.body.value.stationName, target)
    ensures Parsed(resp) ==> v.pm25 == resp.body.value.pm25 && v.o3 == resp.body.value.o3
    ensures Parsed(resp) ==> v.pm10 == resp.body.value.pm10 && v.no2 == resp.body.value.no2
    ensures Parsed(resp) ==>
      var raw := resp.body.value;
      && UiRank(v.grade) == Max(GradeScore(raw.pm10Grade), GradeScore(raw.pm25Grade))
      && v.value == raw.pm10
      && v.sidoName.None? && v.dataTime.None? && v.co.None? && v.so2.None? && v.temp.None? && v.humidity.None?
      && v.detail == Some(Detail(GradeScore(raw.pm10Grade), raw.pm10, GradeScore(raw.pm25Grade), raw.pm25,
                                 raw.o3, raw.no2))
  {
    if Parsed(resp) then
      var v := TransformAir(resp.body.value, target);
      if v.stationName == "" then v.(stationName := target) else v
    else MissingAir(target)
  }

  // ---------------------------------------------------------------- advice

  /** The advice service's answer; absent or `null` fields are `None`. */
  datatype RawAdvice = RawAdvice(
    decision: Option<string>,
    reason: Option<string>,
    actionItems: Option<seq<string>>,
    references: Option<seq<string>>,
    pm25: Option<real>,
    o3: Option<real>,
    pm10: Option<real>,
    no2: Option<real>)

  /** A backend failure reported with status 200. */
  predicate IsBackendError(a: RawAdvice)
  {
    a.decision == Some("Error") || (a.reason.Some? && Contains(a.reason.value, "Error code:"))
  }

  const AdviceMask: string := "KF80 권장"

  const EmptyGuide: AiGuideView :=
    AiGuideView(None, None, None, None, None, None, None, None, None, None, None, None)

  /** The guide shown for a backend failure reported with status 200. */
  const MaintenanceGuide: AiGuideView :=
    EmptyGuide.(summary := Some("AI 서버 설정 오류가 발생했어요 😅"),
                detail := Some("백엔드 OpenAI 모델 설정(Temperature)을 확인해주세요."),
                maskRecommendation := Some("확인 필요"),
                activityRecommendation := Some("확인 필요"))

  /** The guide shown when the advice service gave nothing. */
  const OfflineGuide: AiGuideView :=
    EmptyGuide.(summary := Some("지금은 정보를 가져올 수 없어요 🥲\n잠시 후 다시 시도해주세요!"),
                detail := Some("AI 선생님이 잠시 쉬고 있어요. 연결을 확인해주세요."))

  /** The advice mapping as the route writes it. A backend failure becomes the
      maintenance guide; otherwise the decision is both summary and activity,
      the reason is the detail, and the lists default to empty. The pollutant
      readings of the advice are not carried into the guide. */
  function MapAdviceAsWritten(a: RawAdvice): (g: AiGuideView)
    ensures IsBackendError(a) ==> g == MaintenanceGuide
    ensures !IsBackendError(a) ==>
      && g.summary == a.decision && g.activityRecommendation == a.decision && g.detail == a.reason
      && g.actionItems == Some(OrEmpty(a.actionItems)) && g.references == Some(OrEmpty(a.references))
      && g.maskRecommendation == Some(AdviceMask)
      && g.threeReason.None? && g.detailAnswer.None?
    ensures g.pm25.None? && g.o3.None? && g.pm10.None? && g.no2.None?
  {
    if IsBackendError(a) then MaintenanceGuide
    else
      EmptyGuide.(summary := a.decision, detail := a.reason, actionItems := Some(OrEmpty(a.actionItems)),
                  activityRecommendation := a.decision, maskRecommendation := Some(AdviceMask),
                  references := Some(OrEmpty(a.references)))
  }

  /** The advice mapping with the pollutant readings of a healthy answer carried
      over, which the backfill below is written to consume. */
  function MapAdvice(a: RawAdvice): (g: AiGuideView)
    ensures g.(pm25 := None, o3 := None, pm10 := None, no2 := None) == MapAdviceAsWritten(a)
    ensures IsBackendError(a) ==> g == MaintenanceGuide
    ensures !IsBackendError(a) ==> g.pm25 == a.pm25 && g.o3 == a.o3 && g.pm10 == a.pm10 && g.no2 == a.no2
  {
    var g := MapAdviceAsWritten(a);
    if IsBackendError(a) then g
    else g.(pm25 := a.pm25, o3 := a.o3, pm10 := a.pm10, no2 := a.no2)
  }

  /** A backend failure never shows any text of the failing answer. */
  lemma BackendErrorHidesAnswer(a: RawAdvice, b: RawAdvice)
    requires IsBackendError(a) && IsBackendError(b)
    ensures MapAdvice(a) == MapAdvice(b)
    ensures MapAdviceAsWritten(a) == MapAdviceAsWritten(b)
  {
  }

  predicate AdviceParsed(resp: Response<RawAdvice>)
  {
    resp.Ok? && resp.body.Some?
  }

  /** The guide of one advice-service answer under a given advice mapping. */
  function GuideOf(resp: Response<RawAdvice>, mapAdvice: RawAdvice -> AiGuideView): (g: AiGuideView)
    ensures !AdviceParsed(resp) ==> g == OfflineGuide
    ensures AdviceParsed(resp) ==> g == mapAdvice(resp.body.value)
  {
    if AdviceParsed(resp) then mapAdvice(resp.body.value) else OfflineGuide
  }

  // -------------------------------------------------------------- backfill

  /** `if (!mine && theirs) mine = theirs`. */
  function FillIn(mine: Option<real>, theirs: Option<real>): (r: Option<real>)
    ensures NumTruthy(r) <==> NumTruthy(mine) || NumTruthy(theirs)
    ensures NumTruthy(mine) ==> r == mine
    ensures !NumTruthy(theirs) ==> r == mine
    ensures r == mine || r == theirs
  {
    if !NumTruthy(mine) && NumTruthy(theirs) then theirs else mine
  }

  /** Fills each missing or zero pollutant reading from the guide; nothing else changes. */
  function Backfill(air: AirQualityView, g: AiGuideView): (r: AirQualityView)
    ensures r.pm25 == FillIn(air.pm25, g.pm25) && r.o3 == FillIn(air.o3, g.o3)
    ensures r.pm10 == FillIn(air.pm10, g.pm10) && r.no2 == FillIn(air.no2, g.no2)
    ensures r.(pm25 := air.pm25, o3 := air.o3, pm10 := air.pm10, no2 := air.no2) == air
  {
    air.(pm25 := FillIn(air.pm25, g.pm25), o3 := FillIn(air.o3, g.o3),
         pm10 := FillIn(air.pm10, g.pm10), no2 := FillIn(air.no2, g.no2))
  }

  /** Backfilling twice from the same guide is backfilling once. */
  lemma BackfillIdempotent(air: AirQualityView, g: AiGuideView)
    ensures Backfill(Backfill(air, g), g) == Backfill(air, g)
  {
  }

  /** A guide without pollutant readings leaves the reading as it is. */
  lemma BackfillWithoutReadings(air: AirQualityView, g: AiGuideView)
    requires g.pm25.None? && g.o3.None? && g.pm10.None? && g.no2.None?
    ensures Backfill(air, g) == air
  {
  }

  // ----------------------------------------------------------------- route

  datatype ReportResponse =
    | ServerError(error: string)
    | Report(airQuality: AirQualityView, aiGuide: AiGuideView, timestamp: string)

  /** `POST` under a given advice mapping. `req` is `None` when destructuring
      the body throws: the body is empty, not JSON, or `null`. Any other JSON
      value gives a request, one without fields when it is not an object (a
      number, a string, `true`, an array), so the report is for 강남구 with the
      default profile. An answer of either service that is not JSON throws out
      of the handler as well. */
  function PostWith(req: Option<ReportRequest>, airUp: string -> Response<RawAirReading>,
                    aiUp: (string, AiProfile) -> Response<RawAdvice>, now: string,
                    mapAdvice: RawAdvice -> AiGuideView): (r: ReportResponse)
    ensures r.ServerError? ==> r.error == "Internal Server Error"
    ensures req.None? ==> r.ServerError?
    ensures req.Some? ==>
      var target := TargetStation(req.value);
      var airResp := airUp(target);
      var aiResp := aiUp(target, AiProfileOf(req.value));
      && (r.ServerError? <==> airResp.Unreadable? || aiResp.Unreadable?)
      && (r.Report? ==>
            && r.timestamp == now
            && r.aiGuide == GuideOf(aiResp, mapAdvice)
            && r.airQuality == Backfill(AirOf(airResp, target), r.aiGuide))
  {
    if req.None? then ServerError("Internal Server Error")
    else
      var target := TargetStation(req.value);
      var airResp := airUp(target);
      var aiResp := aiUp(target, AiProfileOf(req.value));
      if airResp.Unreadable? || aiResp.Unreadable? then ServerError("Internal Server Error")
      else
        var guide := GuideOf(aiResp, mapAdvice);
        Report(Backfill(AirOf(airResp, target), guide), guide, now)
  }

  /** The readings of a report against the air service's reading `air` and
      the advice `a`: each reading the air service had is kept, and each it
      left missing or zero is taken from the advice when the advice has one. */
  predicate FilledReading(r: Option<real>, air: Option<real>, adv: Option<real>)
  {
    && (NumTruthy(r) <==> NumTruthy(air) || NumTruthy(adv))
    && (NumTruthy(air) ==> r == air)
    && (!NumTruthy(air) && NumTruthy(adv) ==> r == adv)
  }

  /** Both services answered and the advice is a healthy one. */
  predicate HealthyAnswers(req: ReportRequest, airUp: string -> Response<RawAirReading>,
                           aiUp: (string, AiProfile) -> Response<RawAdvice>)
  {
    && !airUp(TargetStation(req)).Unreadable?
    && AdviceParsed(aiUp(TargetStation(req), AiProfileOf(req)))
    && !IsBackendError(aiUp(TargetStation(req), AiProfileOf(req)).body.value)
  }

  /** The route as written: the backfill never changes the reading. */
  function PostAsWritten(req: Option<ReportRequest>, airUp: string -> Response<RawAirReading>,
                         aiUp: (string, AiProfile) -> Response<RawAdvice>, now: string): (r: ReportResponse)
    ensures r == PostWith(req, airUp, aiUp, now, MapAdviceAsWritten)
    ensures req.Some? && r.Report? ==>
      r.airQuality == AirOf(airUp(TargetStation(req.value)), TargetStation(req.value))
  {
    var r := PostWith(req, airUp, aiUp, now, MapAdviceAsWritten);
    assert req.Some? && r.Report? ==>
      r.airQuality == AirOf(airUp(TargetStation(req.value)), TargetStation(req.value)) by {
      if req.Some? && r.Report? {
        BackfillWithoutReadings(AirOf(airUp(TargetStation(req.value)), TargetStation(req.value)), r.aiGuide);
      }
    }
    r
  }

  /** The route with the advice readings carried over: with both services
      answering and a healthy advice, a reading the air service left missing
      or zero is taken from the advice, and a present one is kept. */
  function Post(req: Option<ReportRequest>, airUp: string -> Response<RawAirReading>,
                aiUp: (string, AiProfile) -> Response<RawAdvice>, now: string): (r: ReportResponse)
    ensures r == PostWith(req, airUp, aiUp, now, MapAdvice)
    ensures req.Some? && HealthyAnswers(req.value, airUp, aiUp) ==> r.Report?
    ensures req.Some? && HealthyAnswers(req.value, airUp, aiUp) && r.Report? ==>
      var air := AirOf(airUp(TargetStation(req.value)), TargetStation(req.value));
      var a := aiUp(TargetStation(req.value), AiProfileOf(req.value)).body.value;
      && FilledReading(r.airQuality.pm25, air.pm25, a.pm25)
      && FilledReading(r.airQuality.o3, air.o3, a.o3)
      && FilledReading(r.airQuality.pm10, air.pm10, a.pm10)
      && FilledReading(r.airQuality.no2, air.no2, a.no2)
  {
    PostWith(req, airUp, aiUp, now, MapAdvice)
  }

  const SampleAdvice: RawAdvice :=
    RawAdvice(Some("외출 가능"), Some("공기가 보통이에요"), None, None, Some(30.0), None, None, None)

  /** The air service fails and the advice service answers with a PM2.5 reading
      of 30: as written the report shows no PM2.5 reading; with the reading
      carried over it shows 30. */
  lemma AsWrittenLosesAdviceReading()
    ensures var airUp: string -> Response<RawAirReading> := _ => Fail;
      var aiUp: (string, AiProfile) -> Response<RawAdvice> := (_, _) => Ok(Some(SampleAdvice));
      var req := ReportRequest(None, None);
      && PostAsWritten(Some(req), airUp, aiUp, "t").airQuality.pm25.None?
      && Post(Some(req), airUp, aiUp, "t").airQuality.pm25 == Some(30.0)
  {
    assert !IsBackendError(SampleAdvice) by {
      assert |SampleAdvice.reason.value| < |"Error code:"|;
    }
  }

  /** Every report names a station: the one the air service resolved or the requested one. */
  lemma ReportNamesAStation(req: ReportRequest, airUp: string -> Response<RawAirReading>,
                            aiUp: (string, AiProfile) -> Response<RawAdvice>, now: string)
    ensures var r := Post(Some(req), airUp, aiUp, now);
      r.Report? ==>
        && r.airQuality.stationName != ""
        && (|| r.airQuality.stationName == TargetStation(req)
            || (Parsed(airUp(TargetStation(req)))
                && r.airQuality.stationName == airUp(TargetStation(req)).body.value.stationName.value))
  {
  }

  /** A failing advice service leaves the offline guide and the reading untouched. */
  lemma OfflineGuideWhenAdviceFails(req: ReportRequest, airUp: string -> Response<RawAirReading>,
                                    aiUp: (string, AiProfile) -> Response<RawAdvice>, now: string)
    requires !airUp(TargetStation(req)).Unreadable?
    requires !AdviceParsed(aiUp(TargetStation(req), AiProfileOf(req)))
    requires !aiUp(TargetStation(req), AiProfileOf(req)).Unreadable?
    ensures var r := Post(Some(req), airUp, aiUp, now);
      && r.Report? && r.aiGuide == OfflineGuide
      && r.airQuality == AirOf(airUp(TargetStation(req)), TargetStation(req))
  {
    BackfillWithoutReadings(AirOf(airUp(TargetStation(req)), TargetStation(req)), OfflineGuide);
  }
}
