/** The pollutant status badges of the data grid (components/DataGrid.tsx):
    a reading is placed in one of four bands by three inclusive upper
    bounds, and each band has a colour and a Korean label. */
module DataGrid {
  import opened JsValue
  import opened Decision

  datatype Status = Status(color: string, statusLabel: string)

  const GoodStatus: Status := Status("bg-green-100 border-green-400 text-green-700", "좋음")
  const ModerateStatus: Status := Status("bg-yellow-100 border-yellow-400 text-yellow-700", "보통")
  const BadStatus: Status := Status("bg-orange-100 border-orange-400 text-orange-700", "나쁨")
  const VeryBadStatus: Status := Status("bg-red-100 border-red-400 text-red-700", "매우나쁨")

  /** The band a status stands for, 1 (good) to 4 (very bad). */
  function StatusRank(s: Status): int
  {
    if s == GoodStatus then 1
    else if s == ModerateStatus then 2
    else if s == BadStatus then 3
    else 4
  }

  /** The first band whose inclusive upper bound the reading does not exceed. */
  function Banded(value: real, good: real, moderate: real, bad: real): (s: Status)
    ensures s == GoodStatus <==> value <= good
    ensures s == ModerateStatus <==> good < value <= moderate
    ensures s == BadStatus <==> good < value && moderate < value <= bad
    ensures s == VeryBadStatus <==> good < value && moderate < value && bad < value
  {
    if value <= good then GoodStatus
    else if value <= moderate then ModerateStatus
    else if value <= bad then BadStatus
    else VeryBadStatus
  }

  /** `getPM25Status`: the badge agrees with the decision engine's PM2.5 grade. */
  function Pm25Status(value: real): (s: Status)
    ensures StatusRank(s) == Pm25Grade(Some(value))
    ensures s.statusLabel == "좋음" <==> value <= 15.0
    ensures s.statusLabel == "매우나쁨" <==> 75.0 < value
  {
    Banded(value, 15.0, 35.0, 75.0)
  }

  /** `getPM10Status`, with the bounds 30, 80 and 150 µg/m³. */
  function Pm10Status(value: real): (s: Status)
    ensures s.statusLabel == "좋음" <==> value <= 30.0
    ensures s.statusLabel == "보통" <==> 30.0 < value <= 80.0
    ensures s.statusLabel == "나쁨" <==> 80.0 < value <= 150.0
    ensures s.statusLabel == "매우나쁨" <==> 150.0 < value
  {
    Banded(value, 30.0, 80.0, 150.0)
  }

  /** `getO3Status`: the badge agrees with the decision engine's ozone grade. */
  function O3Status(value: real): (s: Status)
    ensures StatusRank(s) == O3Grade(Some(value))
    ensures s.statusLabel == "좋음" <==> value <= 0.03
    ensures s.statusLabel == "매우나쁨" <==> 0.15 < value
  {
    Banded(value, 0.03, 0.09, 0.15)
  }

  /** A larger reading never gets a better badge. */
  lemma BandedMonotone(v: real, w: real, good: real, moderate: real, bad: real)
    requires v <= w
    ensures StatusRank(Banded(v, good, moderate, bad)) <= StatusRank(Banded(w, good, moderate, bad))
  {
  }

  lemma StatusesMonotone(v: real, w: real)
    requires v <= w
    ensures StatusRank(Pm25Status(v)) <= StatusRank(Pm25Status(w))
    ensures StatusRank(Pm10Status(v)) <= StatusRank(Pm10Status(w))
    ensures StatusRank(O3Status(v)) <= StatusRank(O3Status(w))
  {
    BandedMonotone(v, w, 15.0, 35.0, 75.0);
    BandedMonotone(v, w, 30.0, 80.0, 150.0);
    BandedMonotone(v, w, 0.03, 0.09, 0.15);
  }

  /** The label alone identifies the band. */
  lemma LabelDeterminesBand(v: real, w: real, good: real, moderate: real, bad: real)
    ensures Banded(v, good, moderate, bad).statusLabel == Banded(w, good, moderate, bad).statusLabel
        <==> StatusRank(Banded(v, good, moderate, bad)) == StatusRank(Banded(w, good, moderate, bad))
  {
  }
}
