/** The station-resolving air-quality route (app/api/air-quality-latest/route.ts):
    place-name normalisation, the ordered duplicate-free candidate list, the
    "unknown station" sentinel, the best-effort candidate search and the
    raw-to-view projection. The upstream lookup is a function from a candidate
    to a response, so the search is a recursion over the candidate sequence. */
module AirQualityLatest {
  import opened JsValue
  import opened JsString
  import opened Decision

  const FallbackTemp: real := 22.0
  const FallbackHumidity: real := 45.0

  /** The upstream reading; every field is optional. */
  datatype RawAirReading = RawAirReading(
    sidoName: Option<string>,
    stationName: Option<string>,
    dataTime: Option<string>,
    pm25Grade: Option<string>,
    pm25: Option<real>,
    pm10Grade: Option<string>,
    pm10: Option<real>,
    o3Grade: Option<string>,
    o3: Option<real>,
    no2Grade: Option<string>,
    no2: Option<real>,
    coGrade: Option<string>,
    co: Option<real>,
    so2Grade: Option<string>,
    so2: Option<real>,
    temp: Option<real>,
    temperature: Option<real>,
    humidity: Option<real>)

  /** One upstream call: a network failure or non-2xx status, a 2xx whose body
      is not JSON (`json()` throws), or a 2xx whose JSON body is an object
      (`Some`) or `null` (`None`). */
  datatype Response<T> = Fail | Unreadable | Ok(body: Option<T>)

  // ---------------------------------------------------- name normalisation

  /** `^(.+?)\d+X$` matches `s` with the lazy group ending at `m`: a non-empty
      prefix without line terminators, then a non-empty digit run, then `x`. */
  predicate SuffixMatch(s: string, x: char, m: int)
  {
    1 <= m < |s| - 1 && s[|s| - 1] == x && AllDigits(s[m..|s| - 1]) && NoLineTerminator(s[..m])
  }

  /** The lazy group tries every end position from `m` upwards. */
  function LazyGroupEnd(s: string, x: char, m: nat): (r: Option<nat>)
    ensures r.Some? ==> m <= r.value < |s| - 1
    decreases |s| - m
  {
    if m + 1 >= |s| then None
    else if SuffixMatch(s, x, m) then Some(m)
    else LazyGroupEnd(s, x, m + 1)
  }

  /** The search finds the least matching end position at or after `m`. */
  lemma {:induction false} LazyGroupEndLeast(s: string, x: char, m: nat)
    ensures var r := LazyGroupEnd(s, x, m);
      && (r.Some? ==> SuffixMatch(s, x, r.value))
      && (r.Some? ==> forall j :: m <= j < r.value ==> !SuffixMatch(s, x, j))
      && (r.None? ==> forall j :: m <= j ==> !SuffixMatch(s, x, j))
    decreases |s| - m
  {
    if m + 1 < |s| && !SuffixMatch(s, x, m) {
      LazyGroupEndLeast(s, x, m + 1);
    }
  }

  /** `s.replace(/^(.+?)\d+X$/, keep ? '$1X' : '$1')`. */
  function ReplaceNumberedSuffix(s: string, x: char, keep: bool): string
  {
    match LazyGroupEnd(s, x, 1)
    case None => s
    case Some(m) => s[..m] + (if keep then [x] else [])
  }

  /** Without a match the name is unchanged; with one, the shortest group is kept. */
  lemma ReplaceNumberedSuffixSpec(s: string, x: char, keep: bool)
    ensures (forall m :: !SuffixMatch(s, x, m)) ==> ReplaceNumberedSuffix(s, x, keep) == s
    ensures forall m :: SuffixMatch(s, x, m) && (forall j :: 1 <= j < m ==> !SuffixMatch(s, x, j)) ==>
      ReplaceNumberedSuffix(s, x, keep) == s[..m] + (if keep then [x] else [])
  {
    LazyGroupEndLeast(s, x, 1);
  }

  /** `역삼1동` becomes `역삼동`. */
  function NormalizeDongName(name: string): string
  {
    ReplaceNumberedSuffix(name, '동', true)
  }

  /** The dong rule, then `효자동1가` to `효자동`, then `…2리` to `…리`. */
  function NormalizeSubregionName(name: string): string
  {
    ReplaceNumberedSuffix(ReplaceNumberedSuffix(NormalizeDongName(name), '가', false), '리', true)
  }

  /** A name p·d·X, with p non-empty, free of line terminators and not ending
      in a digit and d a non-empty digit run, loses d (and X when not kept). */
  lemma {:induction false} NumberedSuffixStripped(p: string, d: string, x: char, keep: bool)
    requires p != [] && NoLineTerminator(p) && !IsDigit(p[|p| - 1])
    requires d != [] && AllDigits(d)
    ensures ReplaceNumberedSuffix(p + d + [x], x, keep) == p + (if keep then [x] else [])
  {
    var s := p + d + [x];
    ReplaceNumberedSuffixSpec(s, x, keep);
    assert s[..|p|] == p;
    assert s[|p|..|s| - 1] == d;
    assert SuffixMatch(s, x, |p|);
    forall j | 1 <= j < |p|
      ensures !SuffixMatch(s, x, j)
    {
      assert s[j..|s| - 1][|p| - 1 - j] == p[|p| - 1];
    }
  }

  /** A name whose last code point is not `x` is left alone. */
  lemma UnsuffixedUnchanged(s: string, x: char, keep: bool)
    requires s == [] || s[|s| - 1] != x
    ensures ReplaceNumberedSuffix(s, x, keep) == s
  {
    ReplaceNumberedSuffixSpec(s, x, keep);
  }

  lemma NormalizeDongExample()
    ensures NormalizeDongName("역삼1동") == "역삼동"
  {
    NumberedSuffixStripped("역삼", "1", '동', true);
    assert "역삼1동" == "역삼" + "1" + ['동'];
  }

  /** A numbered `가` is dropped together with its number. */
  lemma NormalizeSubregionGaExample()
    ensures NormalizeSubregionName("효자동1가") == "효자동"
  {
    assert ReplaceNumberedSuffix("효자동1가", '동', true) == "효자동1가" by {
      UnsuffixedUnchanged("효자동1가", '동', true);
    }
    assert ReplaceNumberedSuffix("효자동1가", '가', false) == "효자동" by {
      NumberedSuffixStripped("효자동", "1", '가', false);
      assert "효자동1가" == "효자동" + "1" + ['가'];
    }
    UnsuffixedUnchanged("효자동", '리', true);
  }

  /** A numbered `리` keeps its `리`. */
  lemma NormalizeSubregionRiExample()
    ensures NormalizeSubregionName("신촌2리") == "신촌리"
  {
    UnsuffixedUnchanged("신촌2리", '동', true);
    UnsuffixedUnchanged("신촌2리", '가', false);
    assert ReplaceNumberedSuffix("신촌2리", '리', true) == "신촌리" by {
      NumberedSuffixStripped("신촌", "2", '리', true);
      assert "신촌2리" == "신촌" + "2" + ['리'];
    }
  }

  // ----------------------------------------------------- candidate list

  /** A candidate is non-empty, trimmed and single-spaced. */
  predicate ValidCandidates(l: seq<string>)
  {
    forall x :: x in l ==> x != "" && Canonical(x)
  }

  /** The `add` closure: normalise, then keep the first occurrence only. */
  function AddCandidate(list: seq<string>, value: string): (r: seq<string>)
    ensures list <= r
    ensures Clean(value) != "" ==> Clean(value) in r
    ensures list == [] && Clean(value) != "" ==> r == [Clean(value)]
    ensures forall x :: x in r ==> x in list || x == Clean(value)
    ensures NoDup(list) ==> NoDup(r)
    ensures ValidCandidates(list) ==> ValidCandidates(r)
  {
    var normalized := Clean(value);
    if normalized == "" then list
    else
      var r := AppendUnique(list, normalized);
      assert list == [] ==> r == [normalized];
      r
  }

  /** `add` either leaves the list alone or appends a new, non-empty form. */
  lemma AddCandidateCases(list: seq<string>, value: string)
    ensures var r := AddCandidate(list, value);
      || (r == list && (Clean(value) == "" || Clean(value) in list))
      || (r == list + [Clean(value)] && Clean(value) != "" && Clean(value) !in list)
  {
  }

  /** The normal form of every value, position by position. */
  function CleanAll(values: seq<string>): (r: seq<string>)
    ensures |r| == |values|
    ensures forall i :: 0 <= i < |values| ==> r[i] == Clean(values[i])
  {
    if values == [] then [] else [Clean(values[0])] + CleanAll(values[1..])
  }

  /** The position of the first occurrence of `x` in `s`. */
  function FirstIndex(s: seq<string>, x: string): (k: nat)
    requires x in s
    ensures k < |s| && s[k] == x
    ensures forall m :: 0 <= m < k ==> s[m] != x
  {
    if s[0] == x then 0 else 1 + FirstIndex(s[1..], x)
  }

  /** Past a different head, the first occurrence is one further on. */
  lemma FirstIndexPastHead(h: string, t: seq<string>, x: string)
    requires x in t && x != h
    ensures FirstIndex([h] + t, x) == 1 + FirstIndex(t, x)
  {
    assert ([h] + t)[1..] == t;
  }

  /** `add` applied to each value in turn. */
  function AddAll(list: seq<string>, values: seq<string>): (r: seq<string>)
    ensures list <= r
    ensures forall v :: v in values && Clean(v) != "" ==> Clean(v) in r
    ensures forall x :: x in r ==> x in list || x in CleanAll(values)
    ensures list == [] && values != [] && Clean(values[0]) != "" ==> r != [] && r[0] == Clean(values[0])
    ensures NoDup(list) ==> NoDup(r)
    ensures ValidCandidates(list) ==> ValidCandidates(r)
    decreases |values|
  {
    if values == [] then list
    else
      var r := AddAll(AddCandidate(list, values[0]), values[1..]);
      assert CleanAll(values) == [Clean(values[0])] + CleanAll(values[1..]);
      assert forall v :: v in values && Clean(v) != "" ==> Clean(v) in r by {
        forall v | v in values && Clean(v) != "" ensures Clean(v) in r {
          if v != values[0] {
            assert v in values[1..];
          }
        }
      }
      r
  }

  /** What `add` appends is new, non-empty and the normal form of some value. */
  lemma {:induction false} AddAllFresh(list: seq<string>, values: seq<string>)
    ensures var r := AddAll(list, values);
      forall i :: |list| <= i < |r| ==> r[i] != "" && r[i] !in list && r[i] in CleanAll(values)
    decreases |values|
  {
    if values != [] {
      var l1 := AddCandidate(list, values[0]);
      AddAllFresh(l1, values[1..]);
      AddCandidateCases(list, values[0]);
      var r := AddAll(list, values);
      assert r == AddAll(l1, values[1..]);
      assert CleanAll(values) == [Clean(values[0])] + CleanAll(values[1..]);
      forall i | |list| <= i < |r|
        ensures r[i] != "" && r[i] !in list && r[i] in CleanAll(values)
      {
        if i < |l1| {
          assert r[i] == l1[i] == Clean(values[0]);
        } else {
          assert r[i] !in l1 && r[i] in CleanAll(values[1..]);
        }
      }
    }
  }

  /** From position `from` on, every entry of `r` occurs in `c`, and the
      entries come in the order of their first occurrences there. */
  predicate InFirstOccurrenceOrder(r: seq<string>, from: nat, c: seq<string>)
  {
    && (forall i :: from <= i < |r| ==> r[i] in c)
    && (forall i, j :: from <= i < j < |r| && r[i] in c && r[j] in c ==> FirstIndex(c, r[i]) < FirstIndex(c, r[j]))
  }

  /** What `add` appends comes in the order the values first produce those forms. */
  lemma {:induction false} AddAllOrder(list: seq<string>, values: seq<string>)
    ensures InFirstOccurrenceOrder(AddAll(list, values), |list|, CleanAll(values))
    decreases |values|
  {
    if values != [] {
      var l1 := AddCandidate(list, values[0]);
      var r := AddAll(list, values);
      assert r == AddAll(l1, values[1..]);
      assert CleanAll(values) == [Clean(values[0])] + CleanAll(values[1..]);
      AddAllOrder(l1, values[1..]);
      AddAllFresh(l1, values[1..]);
      AddCandidateCases(list, values[0]);
      AddAllOrderStep(list, l1, r, Clean(values[0]), CleanAll(values[1..]));
    }
  }

  /** One step of `AddAllOrder`: the head value's form, if new, comes first. */
  lemma AddAllOrderStep(list: seq<string>, l1: seq<string>, r: seq<string>, h: string, c': seq<string>)
    requires l1 == list || (l1 == list + [h] && h != "")
    requires l1 <= r && (h != "" ==> h in l1)
    requires forall m :: |l1| <= m < |r| ==> r[m] != "" && r[m] !in l1
    requires InFirstOccurrenceOrder(r, |l1|, c')
    ensures InFirstOccurrenceOrder(r, |list|, [h] + c')
  {
    var c := [h] + c';
    forall i | |list| <= i < |r|
      ensures r[i] in c
    {
      if i < |l1| {
        assert r[i] == l1[i] == h;
      } else {
        assert r[i] in c';
      }
    }
    forall i, j | |list| <= i < j < |r| && r[i] in c && r[j] in c
      ensures FirstIndex(c, r[i]) < FirstIndex(c, r[j])
    {
      assert r[j] != h && r[j] in c';
      FirstIndexPastHead(h, c', r[j]);
      if i < |l1| {
        assert r[i] == l1[i] == h;
      } else {
        assert r[i] != h && r[i] in c';
        FirstIndexPastHead(h, c', r[i]);
      }
    }
  }

  /** Every token, followed by its dong- and subregion-normalised forms. */
  function TokenVariants(tokens: seq<string>): (r: seq<string>)
    ensures forall t :: t in tokens ==> t in r
  {
    if tokens == [] then []
    else [tokens[0], NormalizeDongName(tokens[0]), NormalizeSubregionName(tokens[0])] + TokenVariants(tokens[1..])
  }

  /** The last, the second-to-last and the last two tokens joined, when there are two or more. */
  function TailVariants(tokens: seq<string>): seq<string>
  {
    if |tokens| >= 2 then
      [tokens[|tokens| - 1], tokens[|tokens| - 2], tokens[|tokens| - 2] + " " + tokens[|tokens| - 1]]
    else []
  }

  type HintTable = seq<(string, seq<string>)>

  /** Districts whose own name finds no station, with well-known neighbourhoods to try. */
  const StationHints: HintTable := [
    ("성남시 분당구", ["정자동", "수내동", "운중동"]),
    ("분당구", ["정자동", "수내동", "운중동"]),
    ("판교동", ["운중동", "정자동"]),
    ("세종시", ["보람동", "아름동", "한솔동", "조치원읍"]),
    ("세종특별자치시", ["보람동", "아름동", "한솔동", "조치원읍"])
  ]

  predicate KeyMatches(cleaned: string, tokens: seq<string>, key: string)
  {
    Contains(cleaned, key) || key in tokens
  }

  /** The `matchedHints` set, in insertion order. */
  function MatchedHints(cleaned: string, tokens: seq<string>, table: HintTable): (r: seq<string>)
    ensures NoDup(r)
    ensures forall k, h :: 0 <= k < |table| && KeyMatches(cleaned, tokens, table[k].0) && h in table[k].1 ==> h in r
    ensures forall h :: h in r ==>
      exists k :: 0 <= k < |table| && KeyMatches(cleaned, tokens, table[k].0) && h in table[k].1
  {
    AddHints([], cleaned, tokens, table)
  }

  function AddHints(acc: seq<string>, cleaned: string, tokens: seq<string>, table: HintTable): (r: seq<string>)
    ensures acc <= r
    ensures NoDup(acc) ==> NoDup(r)
    ensures forall k, h :: 0 <= k < |table| && KeyMatches(cleaned, tokens, table[k].0) && h in table[k].1 ==> h in r
    ensures forall h :: h in r ==>
      h in acc || exists k :: 0 <= k < |table| && KeyMatches(cleaned, tokens, table[k].0) && h in table[k].1
    decreases |table|
  {
    if table == [] then acc
    else
      var acc' := if KeyMatches(cleaned, tokens, table[0].0) then AppendAll(acc, table[0].1) else acc;
      var r := AddHints(acc', cleaned, tokens, table[1..]);
      assert forall k :: 1 <= k < |table| ==> table[k] == table[1..][k - 1];
      r
  }

  function AppendAll(acc: seq<string>, hints: seq<string>): (r: seq<string>)
    ensures acc <= r
    ensures NoDup(acc) ==> NoDup(r)
    ensures forall h :: h in hints ==> h in r
    ensures forall h :: h in r ==> h in acc || h in hints
    decreases |hints|
  {
    if hints == [] then acc
    else AppendAll(AppendUnique(acc, hints[0]), hints[1..])
  }

  /** Every value `buildStationCandidates` hands to `add`, in call order. */
  function CandidateInputs(cleaned: string, table: HintTable): seq<string>
  {
    var tokens := Words(cleaned);
    [cleaned, RemoveWs(cleaned), NormalizeDongName(cleaned), NormalizeSubregionName(cleaned)]
      + TokenVariants(tokens) + TailVariants(tokens) + MatchedHints(cleaned, tokens, table)
  }

  /** `buildStationCandidates` over an arbitrary hint table. */
  function BuildStationCandidatesWith(rawStation: string, table: HintTable): (r: seq<string>)
    ensures NoDup(r) && ValidCandidates(r)
    ensures FirstFormsInOrder(r, CandidateInputs(Clean(rawStation), table))
  {
    var inputs := CandidateInputs(Clean(rawStation), table);
    AddAllFromEmpty(inputs);
    AddAllFromEmptyInOrder(inputs);
    AddAll([], inputs)
  }

  /** `r` holds every non-empty normal form of `values`, nothing else, in the
      order the values first produce them. */
  predicate FirstFormsInOrder(r: seq<string>, values: seq<string>)
  {
    && (forall v :: v in values && Clean(v) != "" ==> Clean(v) in r)
    && InFirstOccurrenceOrder(r, 0, CleanAll(values))
  }

  lemma AddAllFromEmpty(values: seq<string>)
    ensures NoDup(AddAll([], values)) && ValidCandidates(AddAll([], values))
  {
    var empty: seq<string> := [];
    assert NoDup(empty) && ValidCandidates(empty);
    assert AddAll(empty, values) == AddAll([], values);
  }

  /** From the empty list, `add` lists the non-empty normal forms in first-occurrence order. */
  lemma AddAllFromEmptyInOrder(values: seq<string>)
    ensures FirstFormsInOrder(AddAll([], values), values)
  {
    AddAllOrder([], values);
  }

  /** Nothing is tried that is not the normal form of some value handed to `add`. */
  lemma CandidatesAreNormalForms(rawStation: string, table: HintTable)
    ensures var inputs := CandidateInputs(Clean(rawStation), table);
      forall x :: x in BuildStationCandidatesWith(rawStation, table) ==> x in CleanAll(inputs)
  {
    var inputs := CandidateInputs(Clean(rawStation), table);
    assert BuildStationCandidatesWith(rawStation, table) == AddAll([], inputs);
  }

  function BuildStationCandidates(rawStation: string): seq<string>
  {
    BuildStationCandidatesWith(rawStation, StationHints)
  }

  /** The whole normalised name is tried first. */
  lemma CandidatesStartWithName(rawStation: string, table: HintTable)
    ensures var r := BuildStationCandidatesWith(rawStation, table);
      Clean(rawStation) != "" ==> r != [] && r[0] == Clean(rawStation)
  {
    var cleaned := Clean(rawStation);
    var inputs := CandidateInputs(cleaned, table);
    assert inputs[0] == cleaned;
    CleanFixesCanonical(cleaned);
  }

  /** Each value handed to `add` is tried in its normal form, when that is non-empty. */
  lemma CandidateOfInput(rawStation: string, table: HintTable, v: string)
    requires v in CandidateInputs(Clean(rawStation), table)
    ensures Clean(v) != "" ==> Clean(v) in BuildStationCandidatesWith(rawStation, table)
  {
  }

  /** The dong- and subregion-normalised forms of the whole name are tried. */
  lemma CandidatesIncludeNormalizedName(rawStation: string, table: HintTable)
    ensures var cleaned := Clean(rawStation);
      var r := BuildStationCandidatesWith(rawStation, table);
      && (Clean(NormalizeDongName(cleaned)) != "" ==> Clean(NormalizeDongName(cleaned)) in r)
      && (Clean(NormalizeSubregionName(cleaned)) != "" ==> Clean(NormalizeSubregionName(cleaned)) in r)
  {
    var cleaned := Clean(rawStation);
    var head := [cleaned, RemoveWs(cleaned), NormalizeDongName(cleaned), NormalizeSubregionName(cleaned)];
    assert head <= CandidateInputs(cleaned, table);
    assert NormalizeDongName(cleaned) in head && NormalizeSubregionName(cleaned) in head;
    CandidateOfInput(rawStation, table, NormalizeDongName(cleaned));
    CandidateOfInput(rawStation, table, NormalizeSubregionName(cleaned));
  }

  /** Every space-separated token of the name is tried as it is. */
  lemma CandidatesIncludeTokens(rawStation: string, table: HintTable)
    ensures forall t :: t in Words(Clean(rawStation)) ==> t in BuildStationCandidatesWith(rawStation, table)
  {
    var cleaned := Clean(rawStation);
    var tokens := Words(cleaned);
    var inputs := CandidateInputs(cleaned, table);
    WordsAreClean(cleaned);
    forall t | t in tokens
      ensures t in BuildStationCandidatesWith(rawStation, table)
    {
      assert t in TokenVariants(tokens);
      assert t in inputs;
      assert Clean(t) == t;
      CandidateOfInput(rawStation, table, t);
    }
  }

  /** Every hint of a district the name mentions is tried, in its normal form. */
  lemma CandidatesIncludeHints(rawStation: string, table: HintTable, k: nat, h: string)
    requires k < |table| && h in table[k].1
    requires KeyMatches(Clean(rawStation), Words(Clean(rawStation)), table[k].0)
    ensures Clean(h) != "" ==> Clean(h) in BuildStationCandidatesWith(rawStation, table)
  {
    var cleaned := Clean(rawStation);
    var tokens := Words(cleaned);
    assert h in MatchedHints(cleaned, tokens, table);
    assert h in CandidateInputs(cleaned, table);
    CandidateOfInput(rawStation, table, h);
  }

  /** The tokens of a cleaned name are their own normal form. */
  lemma WordsAreClean(cleaned: string)
    requires Canonical(cleaned)
    ensures forall t :: t in Words(cleaned) ==> Clean(t) == t
  {
    forall t | t in Words(cleaned)
      ensures Clean(t) == t
    {
      TokenIsCanonical(cleaned, t);
      CleanFixesCanonical(t);
    }
  }

  lemma TokenIsCanonical(cleaned: string, t: string)
    requires Canonical(cleaned)
    requires t in Words(cleaned)
    ensures Canonical(t)
  {
    var ws := Words(cleaned);
    var k :| 0 <= k < |ws| && ws[k] == t;
    forall i | 0 <= i < |t|
      ensures !IsWs(t[i])
    {
      assert t[i] in t;
      assert t[i] in cleaned;
    }
  }

  /** Every hint of the table is a valid candidate already. */
  predicate HintsAreClean(table: HintTable)
  {
    forall k, h :: 0 <= k < |table| && h in table[k].1 ==> h != "" && Clean(h) == h
  }

  lemma StationHintsAreClean()
    ensures HintsAreClean(StationHints)
  {
    forall k, h | 0 <= k < |StationHints| && h in StationHints[k].1
      ensures h != "" && Clean(h) == h
    {
      assert NoWs(h);
      CleanFixesCanonical(h);
    }
  }

  /** With clean hints, every hint of a matching district is tried verbatim. */
  lemma HintsIncluded(rawStation: string, table: HintTable, k: nat, h: string)
    requires HintsAreClean(table)
    requires k < |table| && h in table[k].1
    requires KeyMatches(Clean(rawStation), Words(Clean(rawStation)), table[k].0)
    ensures h in BuildStationCandidatesWith(rawStation, table)
  {
    CandidatesIncludeHints(rawStation, table, k, h);
  }

  // --------------------------------------------------------------- sentinel

  function AbsReal(x: real): real
  {
    if x < 0.0 then -x else x
  }

  /** A present value within 1e-6 of `c`; a missing one (NaN) never is. */
  predicate Near(o: Option<real>, c: real)
  {
    o.Some? && AbsReal(o.value - c) < 0.000001
  }

  /** The placeholder the upstream returns for a station it cannot resolve. */
  predicate IsUnknownStationSignature(data: Option<RawAirReading>)
  {
    match data
    case None => false
    case Some(d) =>
      d.pm25 == Some(65.0) && d.pm10 == Some(85.0) && Near(d.o3, 0.065) && Near(d.no2, 0.025)
  }

  /** The signature is exact on the particle counts and within 1e-6 on the gases. */
  lemma SentinelSharp(d: RawAirReading, e: real)
    requires d.pm25 == Some(65.0) && d.pm10 == Some(85.0) && d.o3 == Some(0.065) && d.no2 == Some(0.025)
    requires e != 0.0
    ensures IsUnknownStationSignature(Some(d))
    ensures !IsUnknownStationSignature(Some(d.(pm25 := Some(65.0 + e))))
    ensures !IsUnknownStationSignature(Some(d.(pm10 := Some(85.0 + e))))
    ensures AbsReal(e) >= 0.000001 ==> !IsUnknownStationSignature(Some(d.(o3 := Some(0.065 + e))))
    ensures AbsReal(e) >= 0.000001 ==> !IsUnknownStationSignature(Some(d.(no2 := Some(0.025 + e))))
    ensures !IsUnknownStationSignature(Some(d.(o3 := None)))
  {
  }

  // ----------------------------------------------------------------- search

  predicate Parsed(resp: Response<RawAirReading>)
  {
    resp.Ok? && resp.body.Some?
  }

  /** A parsed reading that is not the placeholder. */
  predicate Genuine(resp: Response<RawAirReading>)
  {
    Parsed(resp) && !IsUnknownStationSignature(resp.body)
  }

  predicate SentinelHit(resp: Response<RawAirReading>)
  {
    Parsed(resp) && IsUnknownStationSignature(resp.body)
  }

  /** `parsed.stationName || candidate`. */
  function ResolvedName(raw: RawAirReading, candidate: string): string
  {
    StrOr(raw.stationName, candidate)
  }

  /** The candidates whose response was the placeholder, in order. */
  function SentinelCandidates(c: seq<string>, up: string -> Response<RawAirReading>): (r: seq<string>)
    ensures forall x :: x in r ==> x in c
  {
    if c == [] then []
    else (if SentinelHit(up(c[0])) then [c[0]] else []) + SentinelCandidates(c[1..], up)
  }

  datatype Fallback = Fallback(index: nat, data: RawAirReading, resolvedStation: string)

  datatype SearchOutcome =
    | Hit(index: nat, data: RawAirReading, resolvedStation: string, unknowns: seq<string>)
    | Exhausted(fallback: Option<Fallback>, unknowns: seq<string>)

  /** Tries the candidates in order; stops at the first genuine reading and
      otherwise remembers the first parsed one. */
  function Search(c: seq<string>, up: string -> Response<RawAirReading>): (o: SearchOutcome)
    ensures o.Hit? ==>
      && o.index < |c| && Genuine(up(c[o.index]))
      && (forall j :: 0 <= j < o.index ==> !Genuine(up(c[j])))
      && o.data == up(c[o.index]).body.value
      && o.resolvedStation == ResolvedName(o.data, c[o.index])
      && o.unknowns == SentinelCandidates(c[..o.index], up)
    ensures o.Exhausted? ==>
      && (forall j :: 0 <= j < |c| ==> !Genuine(up(c[j])))
      && o.unknowns == SentinelCandidates(c, up)
    ensures o.Exhausted? && o.fallback.None? ==> forall j :: 0 <= j < |c| ==> !Parsed(up(c[j]))
    ensures o.Exhausted? && o.fallback.Some? ==>
      var f := o.fallback.value;
      f.index < |c| && Parsed(up(c[f.index])) && (forall j :: 0 <= j < f.index ==> !Parsed(up(c[j])))
      && f.data == up(c[f.index]).body.value && f.resolvedStation == ResolvedName(f.data, c[f.index])
    decreases |c|
  {
    if c == [] then Exhausted(None, [])
    else
      var resp := up(c[0]);
      if Genuine(resp) then
        assert c[..0] == [];
        Hit(0, resp.body.value, ResolvedName(resp.body.value, c[0]), [])
      else
        var seen := if Parsed(resp) then [c[0]] else [];
        var rest := Search(c[1..], up);
        assert forall j :: 1 <= j < |c| ==> c[j] == c[1..][j - 1];
        match rest
        case Hit(i, d, n, u) =>
          assert c[..i + 1][1..] == c[1..][..i];
          Hit(i + 1, d, n, seen + u)
        case Exhausted(fb, u) =>
          var fb' :=
            if Parsed(resp) then Some(Fallback(0, resp.body.value, ResolvedName(resp.body.value, c[0])))
            else if fb.Some? then Some(fb.value.(index := fb.value.index + 1))
            else None;
          Exhausted(fb', seen + u)
  }

  /** The loop of `fetchAirDataWithStationFallback` over a given candidate list. */
  function FetchAlong(stationName: string, c: seq<string>, up: string -> Response<RawAirReading>)
    : (r: AirFetchResult<RawAirReading>)
    ensures r.triedStations == c
    // a genuine reading: the first one wins
    ensures forall k :: FirstGenuineAt(c, up, k) ==>
      && r.data == up(c[k]).body
      && r.resolvedStation == ResolvedName(r.data.value, c[k])
      && !r.usedFallbackData
      && (r.usedFallbackCandidate <==> c[k] != c[0] || r.resolvedStation != c[0])
      && r.unknownSignatureCandidates == SentinelCandidates(c[..k], up)
    // no genuine reading: the first parsed response is the fallback
    ensures NoGenuine(c, up) ==>
      && r.unknownSignatureCandidates == SentinelCandidates(c, up)
      && (r.usedFallbackData <==> exists k :: 0 <= k < |c| && Parsed(up(c[k])))
    ensures forall k :: NoGenuine(c, up) && FirstParsedAt(c, up, k) ==>
      && r.data == up(c[k]).body
      && r.resolvedStation == StrOr(Some(ResolvedName(r.data.value, c[k])), stationName)
      && (r.usedFallbackCandidate <==> ResolvedName(r.data.value, c[k]) != c[0])
    // nothing parsed at all
    ensures (forall k :: 0 <= k < |c| ==> !Parsed(up(c[k]))) ==>
      r.data.None? && r.resolvedStation == stationName && !r.usedFallbackCandidate && !r.usedFallbackData
  {
    match Search(c, up)
    case Hit(k, d, n, u) =>
      AirFetchResult(Some(d), n, c, c[k] != c[0] || n != c[0], false, u)
    case Exhausted(fb, u) =>
      if fb.Some? then
        AirFetchResult(Some(fb.value.data), StrOr(Some(fb.value.resolvedStation), stationName), c,
                       fb.value.resolvedStation != c[0], true, u)
      else
        AirFetchResult(None, stationName, c, false, false, u)
  }

  /** `fetchAirDataWithStationFallback`: the loop over the route's own candidates. */
  function FetchAirDataWithStationFallback(stationName: string, up: string -> Response<RawAirReading>)
    : AirFetchResult<RawAirReading>
  {
    FetchAlong(stationName, BuildStationCandidates(stationName), up)
  }

  /** With distinct candidates, a genuine hit counts as a fallback exactly when
      it came from a later candidate or reports a different station. */
  lemma FallbackCandidateIffMoved(stationName: string, c: seq<string>, up: string -> Response<RawAirReading>, k: nat)
    requires NoDup(c) && FirstGenuineAt(c, up, k)
    ensures var r := FetchAlong(stationName, c, up);
      r.usedFallbackCandidate <==> k != 0 || r.resolvedStation != c[0]
  {
  }

  /** The fetch falls back to degraded data exactly when no candidate was genuine. */
  lemma {:induction false} FetchDegradedIffNoGenuine(stationName: string, c: seq<string>,
                                                      up: string -> Response<RawAirReading>)
    ensures var r := FetchAlong(stationName, c, up);
      r.usedFallbackData || r.data.None? <==> NoGenuine(c, up)
  {
    var o := Search(c, up);
    if !NoGenuine(c, up) {
      assert o.Hit?;
      assert FirstGenuineAt(c, up, o.index);
    } else if o.fallback.Some? {
      assert FirstParsedAt(c, up, o.fallback.value.index);
    }
  }

  /** A fetch over valid candidates never resolves to the empty name. */
  lemma {:induction false} FetchResolvesNonEmpty(stationName: string, c: seq<string>,
                                                  up: string -> Response<RawAirReading>)
    requires stationName != "" && ValidCandidates(c)
    ensures FetchAlong(stationName, c, up).resolvedStation != ""
  {
    var o := Search(c, up);
    if o.Hit? {
      assert c[o.index] in c;
    } else if o.fallback.Some? {
      assert c[o.fallback.value.index] in c;
    }
  }

  predicate FirstGenuineAt(c: seq<string>, up: string -> Response<RawAirReading>, k: int)
  {
    0 <= k < |c| && Genuine(up(c[k])) && forall j :: 0 <= j < k ==> !Genuine(up(c[j]))
  }

  predicate FirstParsedAt(c: seq<string>, up: string -> Response<RawAirReading>, k: int)
  {
    0 <= k < |c| && Parsed(up(c[k])) && forall j :: 0 <= j < k ==> !Parsed(up(c[j]))
  }

  predicate NoGenuine(c: seq<string>, up: string -> Response<RawAirReading>)
  {
    forall j :: 0 <= j < |c| ==> !Genuine(up(c[j]))
  }

  // ------------------------------------------------------------ projection

  /** `gradeMap[text || ''] || 2`: Korean grade text to a number, unknown text counting as 2. */
  function GradeScore(text: Option<string>): (g: Grade)
    ensures text.None? ==> g == 2
    ensures g == 1 <==> text == Some("좋음")
    ensures g == 3 <==> text == Some("나쁨")
    ensures g == 4 <==> text == Some("매우나쁨")
  {
    match StrOr(text, "")
    case "좋음" => 1
    case "보통" => 2
    case "나쁨" => 3
    case "매우나쁨" => 4
    case _ => 2
  }

  /** The nested conditional that turns the worst numeric grade into a UI grade. */
  function WorstUiGrade(pm10Grade: Grade, pm25Grade: Grade): (u: UiGrade)
    ensures UiRank(u) == Max(pm10Grade, pm25Grade)
  {
    var worst := Max(pm10Grade, pm25Grade);
    if worst == 4 then VERY_BAD
    else if worst == 3 then BAD
    else if worst == 2 then NORMAL
    else GOOD
  }

  function ToViewAirData(raw: Option<RawAirReading>, fallbackStation: string): (v: AirQualityView)
    ensures raw.None? ==>
      v == AirQualityView(fallbackStation, None, None, NORMAL, None, None, None, None, None, None, None,
                          Some(FallbackTemp), Some(FallbackHumidity), None)
    ensures raw.Some? ==>
      var d := raw.value;
      && v.stationName == StrOr(d.stationName, fallbackStation)
      && UiRank(v.grade) == Max(GradeScore(d.pm10Grade), GradeScore(d.pm25Grade))
      && v.temp == Some(Coalesce(d.temp, Coalesce(d.temperature, FallbackTemp)))
      && v.humidity == Some(Coalesce(d.humidity, FallbackHumidity))
      && v.value == d.pm10 && v.pm25 == d.pm25 && v.pm10 == d.pm10 && v.o3 == d.o3
      && v.no2 == d.no2 && v.co == d.co && v.so2 == d.so2
      && v.sidoName == d.sidoName && v.dataTime == d.dataTime
      && v.detail == Some(Detail(GradeScore(d.pm10Grade), d.pm10, GradeScore(d.pm25Grade), d.pm25, d.o3, d.no2))
  {
    match raw
    case None =>
      AirQualityView(fallbackStation, None, None, NORMAL, None, None, None, None, None, None, None,
                     Some(FallbackTemp), Some(FallbackHumidity), None)
    case Some(d) =>
      var pm10Grade := GradeScore(d.pm10Grade);
      var pm25Grade := GradeScore(d.pm25Grade);
      AirQualityView(
        StrOr(d.stationName, fallbackStation), d.sidoName, d.dataTime, WorstUiGrade(pm10Grade, pm25Grade),
        d.pm10, d.pm25, d.pm10, d.o3, d.no2, d.co, d.so2,
        Some(Coalesce(d.temp, Coalesce(d.temperature, FallbackTemp))),
        Some(Coalesce(d.humidity, FallbackHumidity)),
        Some(Detail(pm10Grade, d.pm10, pm25Grade, d.pm25, d.o3, d.no2)))
  }

  // ------------------------------------------------------------------ route

  datatype LatestResponse =
    | BadRequest(error: string)
    | Latest(airQuality: AirQualityView, reliability: ReliabilityMeta, timestamp: string)

  /** What `GET` answers for a non-blank station name once its candidates are
      known. The clock is read twice: `updatedAt` inside the reliability
      builder, `now` for the response's `timestamp`. */
  function GetAlong(stationName: string, c: seq<string>, up: string -> Response<RawAirReading>,
                    updatedAt: string, now: string)
    : (r: LatestResponse)
    ensures r.Latest?
    ensures r.reliability.requestedStation == stationName && r.reliability.triedStations == c
    ensures r.reliability.aiStatus == AiOk && r.reliability.updatedAt == updatedAt && r.timestamp == now
    ensures r.airQuality
      == ToViewAirData(FetchAlong(stationName, c, up).data, FetchAlong(stationName, c, up).resolvedStation)
    ensures r.reliability == BuildReliabilityMeta(stationName, FetchAlong(stationName, c, up), true, updatedAt)
  {
    var airFetch := FetchAlong(stationName, c, up);
    Latest(ToViewAirData(airFetch.data, airFetch.resolvedStation),
           BuildReliabilityMeta(stationName, airFetch, true, updatedAt), now)
  }

  /** `GET`: the query parameter (absent is `None`) is trimmed; a blank one is
      refused, any other is looked up along its station candidates. */
  function Get(stationParam: Option<string>, up: string -> Response<RawAirReading>, updatedAt: string, now: string)
    : (r: LatestResponse)
    ensures r.BadRequest? <==> stationParam.None? || Trim(stationParam.value) == ""
    ensures r.BadRequest? ==> r.error == "Missing stationName"
    ensures r.Latest? ==>
      r == GetAlong(Trim(stationParam.value), BuildStationCandidates(Trim(stationParam.value)), up, updatedAt, now)
  {
    if stationParam.None? || Trim(stationParam.value) == "" then BadRequest("Missing stationName")
    else
      var stationName := Trim(stationParam.value);
      GetAlong(stationName, BuildStationCandidates(stationName), up, updatedAt, now)
  }

  /** The route's tier is DEGRADED exactly when no candidate gave a genuine reading. */
  lemma DegradedIffNoGenuine(stationName: string, c: seq<string>, up: string -> Response<RawAirReading>,
                             updatedAt: string, now: string)
    ensures GetAlong(stationName, c, up, updatedAt, now).reliability.status == DEGRADED <==> NoGenuine(c, up)
  {
    FetchDegradedIffNoGenuine(stationName, c, up);
  }

  /** A genuine reading at the first candidate that names that same station is LIVE. */
  lemma LiveOnDirectHit(stationName: string, c: seq<string>, up: string -> Response<RawAirReading>,
                        updatedAt: string, now: string)
    requires c != [] && Genuine(up(c[0])) && ResolvedName(up(c[0]).body.value, c[0]) == c[0]
    ensures GetAlong(stationName, c, up, updatedAt, now).reliability.status == LIVE
  {
    assert FirstGenuineAt(c, up, 0);
  }

  /** A reading found further down the list, or reporting another station, is STATION_FALLBACK. */
  lemma FallbackOnMovedHit(stationName: string, c: seq<string>, up: string -> Response<RawAirReading>,
                           updatedAt: string, now: string, k: nat)
    requires NoDup(c) && FirstGenuineAt(c, up, k)
    requires k != 0 || ResolvedName(up(c[k]).body.value, c[k]) != c[0]
    ensures GetAlong(stationName, c, up, updatedAt, now).reliability.status == STATION_FALLBACK
  {
    FallbackCandidateIffMoved(stationName, c, up, k);
  }

  /** Over valid candidates the answer always names a station. */
  lemma NamesAStation(stationName: string, c: seq<string>, up: string -> Response<RawAirReading>,
                      updatedAt: string, now: string)
    requires stationName != "" && ValidCandidates(c)
    ensures GetAlong(stationName, c, up, updatedAt, now).airQuality.stationName != ""
  {
    FetchResolvesNonEmpty(stationName, c, up);
    var airFetch := FetchAlong(stationName, c, up);
    ViewKeepsStationName(airFetch.data, airFetch.resolvedStation);
  }

  lemma ViewKeepsStationName(raw: Option<RawAirReading>, fallbackStation: string)
    requires fallbackStation != ""
    ensures ToViewAirData(raw, fallbackStation).stationName != ""
  {
  }
}
