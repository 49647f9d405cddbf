/** The `**highlight**` splitter of the mini-app (miniapps/ait-webview/src/lib/textUtils.ts).
    The global regular expression for a pair of `**` markers around a lazy
    `(.*?)` group is scanned from left to right; the text between matches
    becomes plain pieces and each match's group a highlighted piece. The rendered React elements are modelled by
    the pieces they are built from. */
module TextUtils {
  import opened JsValue
  import opened JsString

  datatype Piece = Plain(text: string) | Highlight(text: string)

  /** A `**` marker starts at position `i`. */
  predicate MarkerAt(s: string, i: int)
  {
    0 <= i && i + 2 <= |s| && s[i] == '*' && s[i + 1] == '*'
  }

  // ---------------------------------------------------------------- regex

  /** The lazy `(.*?)\*\*` from position `j`: the first closing marker at or after
      `j` that no line terminator precedes. */
  function CloseFrom(s: string, j: nat): (k: Option<nat>)
    ensures k.Some? ==> j <= k.value && MarkerAt(s, k.value)
    decreases |s| - j
  {
    if j + 2 > |s| then None
    else if MarkerAt(s, j) then Some(j)
    else if IsLineTerminator(s[j]) then None
    else CloseFrom(s, j + 1)
  }

  /** No marker and no line terminator starts in `s[j..k]`. */
  predicate OpenRun(s: string, j: int, k: int)
    requires 0 <= j <= k <= |s|
  {
    forall m :: j <= m < k ==> !MarkerAt(s, m) && !IsLineTerminator(s[m])
  }

  /** The closing marker found is the first one, and nothing between stops the `.`;
      when none is found, every candidate is blocked. */
  lemma {:induction false} CloseFromLeast(s: string, j: nat)
    ensures var k := CloseFrom(s, j);
      k.Some? ==> k.value <= |s| && OpenRun(s, j, k.value)
    ensures CloseFrom(s, j).None? ==>
      forall k :: j <= k && MarkerAt(s, k) ==> exists m :: j <= m < k && IsLineTerminator(s[m])
    decreases |s| - j
  {
    if j + 2 > |s| {
    } else if MarkerAt(s, j) {
    } else if IsLineTerminator(s[j]) {
    } else {
      CloseFromLeast(s, j + 1);
      if CloseFrom(s, j).None? {
        forall k | j <= k && MarkerAt(s, k)
          ensures exists m :: j <= m < k && IsLineTerminator(s[m])
        {
          assert k != j;
          var m :| j + 1 <= m < k && IsLineTerminator(s[m]);
        }
      }
    }
  }

  /** The regular expression matched at position `i`: the position of its closing marker. */
  function MatchAt(s: string, i: nat): (k: Option<nat>)
    ensures k.Some? ==> MarkerAt(s, i) && i + 2 <= k.value && MarkerAt(s, k.value)
  {
    if MarkerAt(s, i) then CloseFrom(s, i + 2) else None
  }

  datatype Match = Match(start: nat, close: nat)

  /** `regex.exec` with `lastIndex = from`: the leftmost match at or after `from`. */
  function NextMatch(s: string, from: nat): (m: Option<Match>)
    ensures m.Some? ==> from <= m.value.start && MatchAt(s, m.value.start) == Some(m.value.close)
    decreases |s| - from
  {
    if from >= |s| then None
    else
      match MatchAt(s, from)
      case Some(k) => Some(Match(from, k))
      case None => NextMatch(s, from + 1)
  }

  /** The match found is the leftmost; none is found exactly when no position matches. */
  lemma {:induction false} NextMatchLeftmost(s: string, from: nat)
    ensures var m := NextMatch(s, from);
      m.Some? ==> forall i :: from <= i < m.value.start ==> MatchAt(s, i).None?
    ensures NextMatch(s, from).None? <==> forall i :: from <= i < |s| ==> MatchAt(s, i).None?
    decreases |s| - from
  {
    if from < |s| && MatchAt(s, from).None? {
      NextMatchLeftmost(s, from + 1);
    }
  }

  // --------------------------------------------------------------- matches

  /** The successive results of `regex.exec` from `lastIndex = from`. */
  function Matches(s: string, from: nat): (ms: seq<Match>)
    decreases |s| - from
  {
    match NextMatch(s, from)
    case None => []
    case Some(m) => [m] + Matches(s, m.close + 2)
  }

  /** `ms` is a run of matches from `last` on: in order, not overlapping, each
      between two markers with a clean group. */
  predicate ValidMatches(s: string, last: nat, ms: seq<Match>)
    decreases |ms|
  {
    last <= |s| &&
    (ms != [] ==>
      var m := ms[0];
      && last <= m.start && m.start + 2 <= m.close && m.close + 2 <= |s|
      && MarkerAt(s, m.start) && MarkerAt(s, m.close)
      && CleanHighlight(s[m.start + 2..m.close])
      && ValidMatches(s, m.close + 2, ms[1..]))
  }

  lemma {:induction false} MatchesValid(s: string, from: nat)
    requires from <= |s|
    ensures ValidMatches(s, from, Matches(s, from))
    decreases |s| - from
  {
    var m := NextMatch(s, from);
    if m.Some? {
      var k := m.value.close;
      assert MatchAt(s, m.value.start) == Some(k);
      HighlightIsClean(s, m.value.start, k);
      MatchesValid(s, k + 2);
      assert Matches(s, from) == [m.value] + Matches(s, k + 2);
    }
  }

  /** No match is found exactly when no position matches. */
  lemma MatchesEmpty(s: string)
    ensures Matches(s, 0) == [] <==> forall i :: 0 <= i < |s| ==> MatchAt(s, i).None?
  {
    NextMatchLeftmost(s, 0);
  }

  // ---------------------------------------------------------------- pieces

  /** The pieces of the loop: the text before each match, its group, and the
      rest; written back they give the text from `last` on. */
  function Assemble(s: string, last: nat, ms: seq<Match>): (ps: seq<Piece>)
    requires ValidMatches(s, last, ms)
    decreases |ms|
  {
    if ms == [] then Tail(s, last)
    else Step(s, last, ms[0], Assemble(s, ms[0].close + 2, ms[1..]))
  }

  /** One turn of the loop: the gap before match `m` when it is not empty,
      then the match's group, in front of the pieces that follow. */
  function Step(s: string, last: nat, m: Match, rest: seq<Piece>): (ps: seq<Piece>)
    requires last <= m.start && m.start + 2 <= m.close && m.close + 2 <= |s|
  {
    var hr := [Highlight(s[m.start + 2..m.close])] + rest;
    if m.start > last then [Plain(s[last..m.start])] + hr else hr
  }

  /** The plain piece after the last match, if there is any. */
  function Tail(s: string, last: nat): (ps: seq<Piece>)
    requires last <= |s|
    ensures Render(ps) == s[last..]
    ensures |ps| <= 1 && (ps != [] ==> ps[0].Plain? && ps[0].text != [])
  {
    if last < |s| then
      RenderCons(Plain(s[last..]), []);
      [Plain(s[last..])]
    else []
  }

  /** `parseHighlightedText`: the pieces, or the text itself when there are none. */
  function ParseHighlightedText(text: string): (ps: seq<Piece>)
    ensures ps != []
    ensures text == [] ==> ps == [Plain([])]
  {
    MatchesValid(text, 0);
    var ps := Assemble(text, 0, Matches(text, 0));
    if ps == [] then [Plain(text)] else ps
  }

  /** Writes the pieces back as marked-up text. */
  function Render(ps: seq<Piece>): string
  {
    if ps == [] then [] else Markup(ps[0]) + Render(ps[1..])
  }

  /** A plain piece as it is, a highlight between `**` markers. */
  function Markup(p: Piece): string
  {
    match p
    case Plain(t) => t
    case Highlight(h) => "**" + h + "**"
  }

  lemma RenderCons(p: Piece, ps: seq<Piece>)
    ensures Render([p] + ps) == Markup(p) + Render(ps)
  {
    assert ([p] + ps)[0] == p;
    assert ([p] + ps)[1..] == ps;
  }

  /** The text from an opening marker on is the marker, the group, the closing
      marker and what follows. */
  lemma SplitAtMarkers(s: string, start: nat, close: nat)
    requires start + 2 <= close && close + 2 <= |s|
    requires MarkerAt(s, start) && MarkerAt(s, close)
    ensures s[start..] == "**" + s[start + 2..close] + "**" + s[close + 2..]
  {
    assert s[start..start + 2] == "**" && s[close..close + 2] == "**";
    assert s[start..] == s[start..start + 2] + s[start + 2..close] + s[close..close + 2] + s[close + 2..];
  }

  lemma RenderHighlightFirst(s: string, start: nat, close: nat, rest: seq<Piece>)
    requires start + 2 <= close && close + 2 <= |s|
    requires MarkerAt(s, start) && MarkerAt(s, close)
    requires Render(rest) == s[close + 2..]
    ensures Render([Highlight(s[start + 2..close])] + rest) == s[start..]
  {
    RenderCons(Highlight(s[start + 2..close]), rest);
    SplitAtMarkers(s, start, close);
  }

  lemma RenderPlainFirst(s: string, last: nat, start: nat, rest: seq<Piece>)
    requires last < start <= |s|
    requires Render(rest) == s[start..]
    ensures Render([Plain(s[last..start])] + rest) == s[last..]
  {
    RenderCons(Plain(s[last..start]), rest);
    assert s[last..] == s[last..start] + s[start..];
  }

  lemma StepRender(s: string, last: nat, m: Match, rest: seq<Piece>)
    requires last <= m.start && m.start + 2 <= m.close && m.close + 2 <= |s|
    requires MarkerAt(s, m.start) && MarkerAt(s, m.close)
    requires Render(rest) == s[m.close + 2..]
    ensures Render(Step(s, last, m, rest)) == s[last..]
  {
    RenderHighlightFirst(s, m.start, m.close, rest);
    if m.start > last {
      RenderPlainFirst(s, last, m.start, [Highlight(s[m.start + 2..m.close])] + rest);
    }
  }

  lemma {:induction false} RenderAssemble(s: string, last: nat, ms: seq<Match>)
    requires ValidMatches(s, last, ms)
    ensures Render(Assemble(s, last, ms)) == s[last..]
    decreases |ms|
  {
    if ms != [] {
      assert Render(Assemble(s, ms[0].close + 2, ms[1..])) == s[ms[0].close + 2..] by {
        RenderAssemble(s, ms[0].close + 2, ms[1..]);
      }
      assert Render(Step(s, last, ms[0], Assemble(s, ms[0].close + 2, ms[1..]))) == s[last..] by {
        StepRender(s, last, ms[0], Assemble(s, ms[0].close + 2, ms[1..]));
      }
    }
  }

  /** Writing the pieces back reproduces the input exactly. */
  lemma RenderParse(text: string)
    ensures Render(ParseHighlightedText(text)) == text
  {
    MatchesValid(text, 0);
    RenderAssemble(text, 0, Matches(text, 0));
    if Assemble(text, 0, Matches(text, 0)) == [] {
      RenderCons(Plain(text), []);
    }
  }

  // ----------------------------------------------------------------- shape

  /** A highlight holds no line terminator and no `**` marker. */
  predicate CleanHighlight(h: string)
  {
    NoLineTerminator(h) && forall m :: 0 <= m < |h| ==> !MarkerAt(h, m)
  }

  /** Plain pieces are non-empty, no two are adjacent, and every highlight is clean. */
  predicate WellFormed(ps: seq<Piece>)
  {
    && (forall i :: 0 <= i < |ps| ==> GoodPiece(ps[i]))
    && (forall i :: 0 <= i < |ps| - 1 ==> !(ps[i].Plain? && ps[i + 1].Plain?))
  }

  predicate GoodPiece(p: Piece)
  {
    match p
    case Plain(t) => t != []
    case Highlight(h) => CleanHighlight(h)
  }

  lemma HighlightIsClean(s: string, i: nat, k: nat)
    requires MatchAt(s, i) == Some(k)
    ensures CleanHighlight(s[i + 2..k])
  {
    CloseFromLeast(s, i + 2);
    var h := s[i + 2..k];
    forall m | 0 <= m < |h|
      ensures !MarkerAt(h, m) && !IsLineTerminator(h[m])
    {
      assert h[m] == s[i + 2 + m];
      assert !MarkerAt(s, i + 2 + m);
      if m + 1 < |h| {
        assert h[m + 1] == s[i + 3 + m];
      }
    }
  }

  /** A clean highlight before a well-formed rest, with or without a non-empty
      plain piece in front, makes a well-formed whole. */
  lemma StepWellFormed(s: string, last: nat, m: Match, rest: seq<Piece>)
    requires last <= m.start && m.start + 2 <= m.close && m.close + 2 <= |s|
    requires CleanHighlight(s[m.start + 2..m.close]) && WellFormed(rest)
    ensures WellFormed(Step(s, last, m, rest))
  {
    var ps := Step(s, last, m, rest);
    var n := if m.start > last then 2 else 1;
    assert ps[n - 1] == Highlight(s[m.start + 2..m.close]);
    forall i | 0 <= i < |ps|
      ensures GoodPiece(ps[i])
    {
      if i >= n {
        assert ps[i] == rest[i - n];
      }
    }
    forall i | 0 <= i < |ps| - 1
      ensures !(ps[i].Plain? && ps[i + 1].Plain?)
    {
      if i >= n {
        assert ps[i] == rest[i - n] && ps[i + 1] == rest[i + 1 - n];
      }
    }
  }

  lemma {:induction false} AssembleWellFormed(s: string, last: nat, ms: seq<Match>)
    requires ValidMatches(s, last, ms)
    ensures WellFormed(Assemble(s, last, ms))
    decreases |ms|
  {
    if ms != [] {
      AssembleWellFormed(s, ms[0].close + 2, ms[1..]);
      StepWellFormed(s, last, ms[0], Assemble(s, ms[0].close + 2, ms[1..]));
    }
  }

  /** Every highlight is clean; plain pieces are non-empty and never adjacent,
      except the single empty piece returned for the empty text. */
  lemma ParseWellFormed(text: string)
    ensures text != [] ==> WellFormed(ParseHighlightedText(text))
    ensures text == [] ==> ParseHighlightedText(text) == [Plain([])]
  {
    MatchesValid(text, 0);
    AssembleWellFormed(text, 0, Matches(text, 0));
  }

  /** Without a complete `**…**` pair on one line the text comes back as one
      plain piece; with one, some piece is highlighted. */
  lemma NoMarkupIsPlain(text: string)
    ensures (forall i :: 0 <= i < |text| ==> MatchAt(text, i).None?)
        <==> ParseHighlightedText(text) == [Plain(text)]
  {
    MatchesEmpty(text);
    MatchesValid(text, 0);
    var ms := Matches(text, 0);
    if ms != [] {
      var ps := Step(text, 0, ms[0], Assemble(text, ms[0].close + 2, ms[1..]));
      assert ps[if ms[0].start > 0 then 1 else 0].Highlight?;
    }
  }

  /** A pair of markers around nothing is one empty highlight. */
  lemma ParseEmptyHighlight()
    ensures ParseHighlightedText("****") == [Highlight([])]
  {
    var s := "****";
    assert MatchAt(s, 0) == Some(2);
    assert Matches(s, 4) == [];
    assert Matches(s, 0) == [Match(0, 2)];
    assert Assemble(s, 0, [Match(0, 2)]) == Step(s, 0, Match(0, 2), []) == [Highlight([])];
  }

  lemma ParseSentence()
    ensures ParseHighlightedText("a **b** c") == [Plain("a "), Highlight("b"), Plain(" c")]
  {
    var s := "a **b** c";
    assert MatchAt(s, 0).None? && MatchAt(s, 1).None?;
    assert CloseFrom(s, 4) == Some(5);
    assert NextMatch(s, 0) == Some(Match(2, 5));
    assert MatchAt(s, 7).None? && MatchAt(s, 8).None?;
    assert Matches(s, 7) == [];
    assert Matches(s, 0) == [Match(2, 5)];
    assert s[0..2] == "a " && s[4..5] == "b" && s[7..] == " c";
    assert Assemble(s, 7, []) == [Plain(" c")];
    assert Assemble(s, 0, [Match(2, 5)]) == Step(s, 0, Match(2, 5), [Plain(" c")])
      == [Plain("a "), Highlight("b"), Plain(" c")];
  }

  /** The group does not cross a line break. */
  lemma ParseAcrossLines()
    ensures ParseHighlightedText("**a\nb**") == [Plain("**a\nb**")]
  {
    var t := "**a\nb**";
    assert CloseFrom(t, 2).None?;
    assert forall i :: 1 <= i < |t| ==> MatchAt(t, i).None?;
    NoMarkupIsPlain(t);
  }
}
