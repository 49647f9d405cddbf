/** String operations of the JavaScript runtime that the modelled code uses:
    the `\s` character class (also what `String.prototype.trim` strips), the
    line terminators that `.` refuses, `trim()`, `replace(/\s+/g, ' ')`,
    `replace(/\s+/g, '')`, `split(' ').filter(Boolean)`, `includes` and
    `startsWith`. Strings are sequences of code points. */
module JsString {

  /** ECMAScript WhiteSpace and LineTerminator code points: the `\s` class. */
  predicate IsWs(c: char)
  {
    c == '\t' || c == '\n' || c == '\U{B}' || c == '\U{C}' || c == '\r' || c == ' '
    || c == '\U{A0}' || c == '\U{1680}' || ('\U{2000}' <= c <= '\U{200A}')
    || c == '\U{2028}' || c == '\U{2029}' || c == '\U{202F}' || c == '\U{205F}'
    || c == '\U{3000}' || c == '\U{FEFF}'
  }

  /** The code points a regular-expression `.` does not match. */
  predicate IsLineTerminator(c: char)
  {
    c == '\n' || c == '\r' || c == '\U{2028}' || c == '\U{2029}'
  }

  /** The `\d` class: ASCII digits only. */
  predicate IsDigit(c: char)
  {
    '0' <= c <= '9'
  }

  predicate AllDigits(s: string)
  {
    forall i :: 0 <= i < |s| ==> IsDigit(s[i])
  }

  predicate NoLineTerminator(s: string)
  {
    forall i :: 0 <= i < |s| ==> !IsLineTerminator(s[i])
  }

  predicate NoWs(s: string)
  {
    forall i :: 0 <= i < |s| ==> !IsWs(s[i])
  }

  /** Value of a run of ASCII digits, most significant first. */
  function DigitsValue(s: string): (n: nat)
    requires AllDigits(s)
  {
    if s == [] then 0
    else 10 * DigitsValue(s[..|s| - 1]) + (s[|s| - 1] as int - '0' as int)
  }

  // ---------------------------------------------------------------- trim

  function TrimStart(s: string): (r: string)
    ensures |r| <= |s| && r == s[|s| - |r|..]
    ensures r != [] ==> !IsWs(r[0])
    ensures forall i :: 0 <= i < |s| - |r| ==> IsWs(s[i])
  {
    if s != [] && IsWs(s[0]) then TrimStart(s[1..]) else s
  }

  function TrimEnd(s: string): (r: string)
    ensures |r| <= |s| && r == s[..|r|]
    ensures r != [] ==> !IsWs(r[|r| - 1])
    ensures forall i :: |r| <= i < |s| ==> IsWs(s[i])
  {
    if s != [] && IsWs(s[|s| - 1]) then TrimEnd(s[..|s| - 1]) else s
  }

  /** `String.prototype.trim`. */
  function Trim(s: string): (r: string)
    ensures r != [] ==> !IsWs(r[0]) && !IsWs(r[|r| - 1])
    ensures r == [] <==> AllWs(s)
  {
    TrimEndKeepsStart(TrimStart(s));
    TrimEnd(TrimStart(s))
  }

  /** True when every code point of `s` is whitespace (including the empty string). */
  predicate AllWs(s: string)
  {
    forall i :: 0 <= i < |s| ==> IsWs(s[i])
  }

  lemma TrimEndKeepsStart(s: string)
    requires s != [] ==> !IsWs(s[0])
    ensures TrimEnd(s) != [] ==> !IsWs(TrimEnd(s)[0])
    ensures TrimEnd(s) == [] <==> s == []
  {
  }

  // ------------------------------------------------------- whitespace runs

  /** Drops the leading run of whitespace. */
  function DropWs(s: string): (r: string)
    ensures |r| <= |s| && r == s[|s| - |r|..]
    ensures r != [] ==> !IsWs(r[0])
    ensures s != [] && IsWs(s[0]) ==> |r| < |s|
    ensures forall i :: 0 <= i < |s| - |r| ==> IsWs(s[i])
  {
    if s != [] && IsWs(s[0]) then DropWs(s[1..]) else s
  }

  /** `s.replace(/\s+/g, ' ')`: every maximal whitespace run becomes one space. */
  function Collapse(s: string): string
    decreases |s|
  {
    if s == [] then []
    else if IsWs(s[0]) then [' '] + Collapse(DropWs(s))
    else [s[0]] + Collapse(s[1..])
  }

  /** The collapsed string is empty exactly when the input is, agrees with it on
      whether it starts with whitespace and keeps a non-white first code point. */
  lemma CollapseStart(s: string)
    ensures var r := Collapse(s);
      && (r == [] <==> s == [])
      && (r != [] ==> (IsWs(r[0]) <==> IsWs(s[0])))
      && (r != [] && !IsWs(s[0]) ==> r[0] == s[0])
  {
  }

  /** The collapsed string agrees with the input on whether it ends with
      whitespace. */
  lemma {:induction false} CollapseLast(s: string)
    ensures Collapse(s) != [] ==> (IsWs(Collapse(s)[|Collapse(s)| - 1]) <==> IsWs(s[|s| - 1]))
    decreases |s|
  {
    if s == [] {
    } else if IsWs(s[0]) {
      assert DropWs(s) != [] ==> s[|s| - 1] == DropWs(s)[|DropWs(s)| - 1];
      assert DropWs(s) == [] ==> IsWs(s[|s| - 1]);
      assert Collapse(DropWs(s)) == [] <==> DropWs(s) == [] by {
        CollapseStart(DropWs(s));
      }
      CollapseLast(DropWs(s));
    } else {
      assert Collapse(s[1..]) == [] <==> s[1..] == [] by {
        CollapseStart(s[1..]);
      }
      CollapseLast(s[1..]);
    }
  }

  /** Both ends of the collapsed string agree with the input's. */
  lemma CollapseEnds(s: string)
    ensures var r := Collapse(s);
      && (r == [] <==> s == [])
      && (r != [] ==> (IsWs(r[0]) <==> IsWs(s[0])))
      && (r != [] && !IsWs(s[0]) ==> r[0] == s[0])
      && (r != [] ==> (IsWs(r[|r| - 1]) <==> IsWs(s[|s| - 1])))
  {
    CollapseStart(s);
    CollapseLast(s);
  }

  /** The only whitespace left by collapsing is single spaces. */
  lemma {:induction false} CollapseSingleSpaced(s: string)
    ensures SingleSpaced(Collapse(s))
    decreases |s|
  {
    if s == [] {
    } else if IsWs(s[0]) {
      var rest := DropWs(s);
      CollapseSingleSpaced(rest);
      CollapseEnds(rest);
      SingleSpacedCons(' ', Collapse(rest));
    } else {
      CollapseSingleSpaced(s[1..]);
      SingleSpacedCons(s[0], Collapse(s[1..]));
    }
  }

  /** Whitespace occurs only as single spaces (leading and trailing ones allowed). */
  predicate SingleSpaced(s: string)
  {
    && (forall i :: 0 <= i < |s| && IsWs(s[i]) ==> s[i] == ' ')
    && (forall i :: 0 <= i < |s| - 1 ==> NoDoubleWsAt(s, i))
  }

  lemma SingleSpacedCons(c: char, t: string)
    requires SingleSpaced(t)
    requires IsWs(c) ==> c == ' ' && (t != [] ==> !IsWs(t[0]))
    ensures SingleSpaced([c] + t)
  {
    forall i | 0 <= i < |t|
      ensures NoDoubleWsAt([c] + t, i)
    {
      if i > 0 {
        assert NoDoubleWsAt(t, i - 1);
      }
    }
  }

  lemma SingleSpacedTail(s: string)
    requires s != [] && SingleSpaced(s)
    ensures SingleSpaced(s[1..])
  {
    forall i | 0 <= i < |s| - 2
      ensures NoDoubleWsAt(s[1..], i)
    {
      assert NoDoubleWsAt(s, i + 1);
    }
  }

  /** `s.replace(/\s+/g, '')`: every whitespace code point is removed. */
  function RemoveWs(s: string): (r: string)
    ensures NoWs(r)
    ensures |r| <= |s|
  {
    if s == [] then []
    else if IsWs(s[0]) then RemoveWs(s[1..])
    else [s[0]] + RemoveWs(s[1..])
  }

  /** `s.trim().replace(/\s+/g, ' ')`, the normal form of a place name. */
  function Clean(s: string): (r: string)
    ensures Canonical(r)
    ensures r == [] <==> AllWs(s)
  {
    var t := Trim(s);
    assert Canonical(Collapse(t)) by {
      CollapseEnds(t);
      CollapseSingleSpaced(t);
    }
    assert Collapse(t) == [] <==> t == [] by {
      CollapseStart(t);
    }
    Collapse(t)
  }

  /** A string with no leading or trailing whitespace whose only whitespace
      is single spaces: exactly the strings `Clean` leaves unchanged. */
  predicate Canonical(s: string)
  {
    SingleSpaced(s) && (s != [] ==> !IsWs(s[0]) && !IsWs(s[|s| - 1]))
  }

  /** Position `i` does not start a run of two whitespace code points. */
  predicate NoDoubleWsAt(s: string, i: int)
    requires 0 <= i < |s| - 1
  {
    !(IsWs(s[i]) && IsWs(s[i + 1]))
  }

  lemma {:induction false} CollapseCanonical(s: string)
    requires SingleSpaced(s)
    ensures Collapse(s) == s
    decreases |s|
  {
    if s != [] {
      SingleSpacedTail(s);
      CollapseCanonical(s[1..]);
      if IsWs(s[0]) {
        assert |s| > 1 ==> NoDoubleWsAt(s, 0);
        assert DropWs(s[1..]) == s[1..];
        assert DropWs(s) == s[1..];
      }
    }
  }

  lemma {:induction false} CleanFixesCanonical(s: string)
    requires Canonical(s)
    ensures Clean(s) == s
  {
    if s != [] {
      assert !IsWs(s[0]) && !IsWs(s[|s| - 1]);
    }
    assert TrimStart(s) == s;
    assert TrimEnd(s) == s;
    CollapseCanonical(s);
  }

  // ----------------------------------------------------------------- split

  /** Length of the leading run of non-space code points. */
  function WordLength(s: string): (k: nat)
    ensures k <= |s|
    ensures forall i :: 0 <= i < k ==> s[i] != ' '
    ensures k < |s| ==> s[k] == ' '
  {
    if s == [] || s[0] == ' ' then 0 else 1 + WordLength(s[1..])
  }

  /** `s.split(' ').filter(Boolean)`: the maximal non-empty runs without a space. */
  function Words(s: string): (ws: seq<string>)
    ensures forall k :: 0 <= k < |ws| ==> ws[k] != [] && ' ' !in ws[k]
    ensures forall k, c :: 0 <= k < |ws| && c in ws[k] ==> c in s
    decreases |s|
  {
    if s == [] then []
    else if s[0] == ' ' then
      assert forall c :: c in s[1..] ==> c in s;
      Words(s[1..])
    else
      var k := WordLength(s);
      assert forall c :: c in s[k..] ==> c in s;
      assert forall c :: c in s[..k] ==> c in s;
      [s[..k]] + Words(s[k..])
  }

  // ------------------------------------------------------------- searching

  /** `s.includes(t)`. */
  predicate Contains(s: string, t: string)
  {
    exists i :: 0 <= i <= |s| - |t| && OccursAt(s, t, i)
  }

  predicate OccursAt(s: string, t: string, i: int)
  {
    0 <= i <= |s| - |t| && s[i..i + |t|] == t
  }

  /** `s.startsWith(t)`. */
  predicate StartsWith(s: string, t: string)
  {
    |t| <= |s| && s[..|t|] == t
  }

  predicate EndsWith(s: string, t: string)
  {
    |t| <= |s| && s[|s| - |t|..] == t
  }
}
