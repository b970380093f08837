/** Shared vocabulary of the web client: optional values, thrown errors, and the
    handful of JavaScript string operations the application relies on
    (`trim`, `toLowerCase`, `includes`, `startsWith`, `String(n)` for integers). */
module Common {

  datatype Option<T> = None | Some(value: T)

  /** A settled promise: a value, or an `Error` carrying its message. */
  datatype Result<T> = Ok(value: T) | Err(message: string)

  /** A settled call whose failure may be anything thrown: a value, or a throw carrying
      an `Error`'s message (None when what was thrown is not an `Error`). */
  datatype Outcome<T> = Fulfilled(value: T) | Thrown(message: Option<string>)

  /** `err instanceof Error ? err.message : fallback`. */
  function ErrorText(message: Option<string>, fallback: string): (r: string)
    ensures message.Some? ==> r == message.value
    ensures message.None? ==> r == fallback
  {
    if message.Some? then message.value else fallback
  }

  /** The characters JavaScript's `trim` removes and `\s` matches:
      WhiteSpace and LineTerminator of the ECMAScript grammar. */
  predicate IsSpace(c: char)
  {
    c == ' ' || c == '\t' || c == '\n' || c == '\r' || c == '\U{000B}' || c == '\U{000C}'
    || c == '\U{00A0}' || c == '\U{1680}' || ('\U{2000}' <= c <= '\U{200A}')
    || c == '\U{2028}' || c == '\U{2029}' || c == '\U{202F}' || c == '\U{205F}'
    || c == '\U{3000}' || c == '\U{FEFF}'
  }

  predicate AllSpace(s: string)
  {
    forall k :: 0 <= k < |s| ==> IsSpace(s[k])
  }

  function TrimStart(s: string): (r: string)
    ensures |r| <= |s| && r == s[|s| - |r|..]
    ensures AllSpace(s[..|s| - |r|])
    ensures r == [] || !IsSpace(r[0])
  {
    if s == [] || !IsSpace(s[0]) then s else TrimStart(s[1..])
  }

  function TrimEnd(s: string): (r: string)
    ensures |r| <= |s| && r == s[..|r|]
    ensures AllSpace(s[|r|..])
    ensures r == [] || !IsSpace(r[|r| - 1])
  {
    if s == [] || !IsSpace(s[|s| - 1]) then s else TrimEnd(s[..|s| - 1])
  }

  /** `String.prototype.trim`. */
  function Trim(s: string): string
  {
    TrimEnd(TrimStart(s))
  }

  /** A string is blank (falsy once trimmed) exactly when every character is white space. */
  lemma TrimEmptyIffBlank(s: string)
    ensures Trim(s) == [] <==> AllSpace(s)
  {
    var t := TrimStart(s);
    if Trim(s) == [] {
      assert s == s[..|s| - |t|] + t;
      assert AllSpace(t[|Trim(s)|..]);
    }
  }

  /** Trimming leaves a string with no white space at either end alone. */
  lemma TrimOfTrimmed(s: string)
    requires s == [] || (!IsSpace(s[0]) && !IsSpace(s[|s| - 1]))
    ensures Trim(s) == s
  {
  }

  /** A trimmed string has no white space at either end, so trimming is idempotent. */
  lemma TrimIsTrimmed(s: string)
    ensures var t := Trim(s); t == [] || (!IsSpace(t[0]) && !IsSpace(t[|t| - 1]))
    ensures Trim(Trim(s)) == Trim(s)
  {
    var u := TrimStart(s);
    var t := Trim(s);
    if t != [] {
      assert t == u[..|t|];
      assert t[0] == u[0];
    }
    TrimOfTrimmed(t);
  }

  /** White space appended after text does not survive trimming. */
  lemma TrimDropsTrailingSpace(s: string, w: string)
    requires AllSpace(w)
    ensures Trim(s + w) == Trim(s)
  {
    TrimStartAppendSpace(s, w);
    if !AllSpace(s) {
      TrimEndAppendSpace(TrimStart(s), w);
    } else {
      TrimEmptyIffBlank(s);
    }
  }

  /** White space put before text does not survive trimming either. */
  lemma TrimDropsLeadingSpace(w: string, s: string)
    requires AllSpace(w)
    ensures Trim(w + s) == Trim(s)
  {
    TrimStartPrependSpace(w, s);
  }

  lemma {:induction false} TrimStartPrependSpace(w: string, s: string)
    requires AllSpace(w)
    ensures TrimStart(w + s) == TrimStart(s)
  {
    if w == [] {
      assert w + s == s;
    } else {
      assert (w + s)[0] == w[0];
      assert (w + s)[1..] == w[1..] + s;
      TrimStartPrependSpace(w[1..], s);
    }
  }

  lemma {:induction false} TrimEndAppendSpace(s: string, w: string)
    requires AllSpace(w)
    ensures TrimEnd(s + w) == TrimEnd(s)
    decreases |w|
  {
    if w != [] {
      assert (s + w)[..|s + w| - 1] == s + w[..|w| - 1];
      TrimEndAppendSpace(s, w[..|w| - 1]);
    } else {
      assert s + w == s;
    }
  }

  lemma {:induction false} TrimStartAppendSpace(s: string, w: string)
    requires AllSpace(w)
    ensures AllSpace(s) ==> TrimStart(s + w) == []
    ensures !AllSpace(s) ==> TrimStart(s + w) == TrimStart(s) + w
    decreases |s|
  {
    if s == [] {
      assert s + w == w;
    } else if !IsSpace(s[0]) {
    } else {
      assert (s + w)[1..] == s[1..] + w;
      TrimStartAppendSpace(s[1..], w);
      assert AllSpace(s) <==> AllSpace(s[1..]);
    }
  }

  /** `String.prototype.startsWith`. */
  predicate StartsWith(s: string, prefix: string)
  {
    |prefix| <= |s| && s[..|prefix|] == prefix
  }

  /** `String.prototype.includes`: some position of `s` starts an occurrence of `t`. */
  predicate Contains(s: string, t: string)
    decreases |s|
  {
    StartsWith(s, t) || (s != [] && Contains(s[1..], t))
  }

  lemma {:induction false} ContainsAt(s: string, t: string, i: nat)
    requires i + |t| <= |s| && s[i..i + |t|] == t
    ensures Contains(s, t)
    decreases i
  {
    if i > 0 {
      assert s[1..][i - 1..i - 1 + |t|] == s[i..i + |t|];
      ContainsAt(s[1..], t, i - 1);
    }
  }

  /** An occurrence of `t` in `s` has a position. */
  lemma {:induction false} ContainsPos(s: string, t: string) returns (p: nat)
    requires Contains(s, t)
    ensures p + |t| <= |s| && s[p..p + |t|] == t
    decreases |s|
  {
    if StartsWith(s, t) {
      p := 0;
    } else {
      var q := ContainsPos(s[1..], t);
      assert s[1..][q..q + |t|] == s[q + 1..q + 1 + |t|];
      p := q + 1;
    }
  }

  /** What occurs in a slice of `s` occurs in `s`. */
  lemma ContainsInSlice(s: string, i: nat, j: nat, t: string)
    requires i <= j <= |s| && Contains(s[i..j], t)
    ensures Contains(s, t)
  {
    var x := s[i..j];
    var p := ContainsPos(x, t);
    var y, z := x[p..p + |t|], s[i + p..i + p + |t|];
    assert forall k :: 0 <= k < |t| ==> y[k] == z[k];
    assert y == z;
    ContainsAt(s, t, i + p);
  }

  /** Trimming keeps a contiguous slice, so it cannot create an occurrence. */
  lemma TrimContains(s: string, t: string)
    requires Contains(Trim(s), t)
    ensures Contains(s, t)
  {
    var u := TrimStart(s);
    var r := Trim(s);
    var a := |s| - |u|;
    assert r == u[..|r|];
    assert r == s[a..a + |r|];
    ContainsInSlice(s, a, a + |r|, t);
  }

  /** A piece placed between two other strings is contained in the result. */
  lemma ContainsMiddle(x: string, t: string, y: string)
    ensures Contains(x + t + y, t)
  {
    var s := x + t + y;
    assert s[|x|..|x| + |t|] == t;
    ContainsAt(s, t, |x|);
  }

  /** An occurrence of a non-empty `t` supplies its first character somewhere in `s`. */
  lemma {:induction false} ContainsHasFirst(s: string, t: string)
    requires t != [] && Contains(s, t)
    ensures t[0] in s
    decreases |s|
  {
    if !StartsWith(s, t) {
      ContainsHasFirst(s[1..], t);
    }
  }

  /** `toLowerCase` on the ASCII letters; every other character is kept. */
  function LowerChar(c: char): (r: char)
    ensures ('A' <= c <= 'Z') ==> r != c
    ensures !('A' <= c <= 'Z') ==> r == c
    ensures !('A' <= r <= 'Z')
  {
    if 'A' <= c <= 'Z' then (c as int + 32) as char else c
  }

  function ToLower(s: string): (r: string)
    ensures |r| == |s|
    ensures forall k :: 0 <= k < |s| ==> r[k] == LowerChar(s[k])
  {
    if s == [] then [] else [LowerChar(s[0])] + ToLower(s[1..])
  }

  /** Lower-casing leaves text without capital letters unchanged, and is idempotent. */
  lemma ToLowerKeepsLower(s: string)
    requires forall k :: 0 <= k < |s| ==> !('A' <= s[k] <= 'Z')
    ensures ToLower(s) == s
  {
  }

  function DigitChar(d: nat): (c: char)
    requires d < 10
    ensures '0' <= c <= '9'
  {
    ('0' as int + d) as char
  }

  predicate IsDigit(c: char)
  {
    '0' <= c <= '9'
  }

  predicate AllDigits(s: string)
  {
    forall k :: 0 <= k < |s| ==> IsDigit(s[k])
  }

  /** Decimal rendering of a natural number, as JavaScript's `String(n)` writes it. */
  function NatToString(n: nat): (r: string)
    ensures r != [] && AllDigits(r)
    ensures |r| > 1 ==> r[0] != '0'
  {
    if n < 10 then [DigitChar(n)] else NatToString(n / 10) + [DigitChar(n % 10)]
  }

  /** Decimal rendering of an integer, with a leading `-` for negatives. */
  function IntToString(i: int): (r: string)
    ensures r != []
    ensures i < 0 <==> r[0] == '-'
  {
    if i < 0 then "-" + NatToString(-i) else NatToString(i)
  }

  /** The value of a run of decimal digits (what `Number` gives for such a string). */
  function DigitsValue(s: string): nat
    requires AllDigits(s)
  {
    if s == [] then 0 else DigitsValue(s[..|s| - 1]) * 10 + (s[|s| - 1] as int - '0' as int)
  }

  /** Reading back the decimal rendering of `n` gives `n`. */
  lemma {:induction false} DigitsValueOfNatToString(n: nat)
    ensures DigitsValue(NatToString(n)) == n
  {
    if n >= 10 {
      var s := NatToString(n);
      assert s[..|s| - 1] == NatToString(n / 10);
      DigitsValueOfNatToString(n / 10);
    }
  }

  // ---------------------------------------------------------------------------
  // White-space runs

  /** `s.replace(/\s+/g, sep)`: every maximal run of white space becomes `sep`. */
  function ReplaceSpaceRuns(s: string, sep: string): string
    decreases |s|
  {
    if s == [] then []
    else if IsSpace(s[0]) then sep + ReplaceSpaceRuns(TrimStart(s), sep)
    else [s[0]] + ReplaceSpaceRuns(s[1..], sep)
  }

  /** No white space survives when the separator has none, and text without white
      space is left alone. */
  lemma {:induction false} ReplaceSpaceRunsClean(s: string, sep: string)
    requires !exists k :: 0 <= k < |sep| && IsSpace(sep[k])
    ensures forall k :: 0 <= k < |ReplaceSpaceRuns(s, sep)| ==> !IsSpace(ReplaceSpaceRuns(s, sep)[k])
    ensures (forall k :: 0 <= k < |s| ==> !IsSpace(s[k])) ==> ReplaceSpaceRuns(s, sep) == s
    decreases |s|
  {
    if s != [] {
      if IsSpace(s[0]) {
        ReplaceSpaceRunsClean(TrimStart(s), sep);
      } else {
        ReplaceSpaceRunsClean(s[1..], sep);
        if forall k :: 0 <= k < |s| ==> !IsSpace(s[k]) {
          assert forall k :: 0 <= k < |s[1..]| ==> !IsSpace(s[1..][k]);
        }
      }
    }
  }

  /** Lower-casing does not touch white space, so it commutes with the run replacement:
      replacing then lower-casing, as the skyline download does, is lower-casing then
      replacing, as the card does. */
  lemma {:induction false} LowerCommutesWithReplace(s: string, sep: string)
    ensures ToLower(ReplaceSpaceRuns(s, sep)) == ReplaceSpaceRuns(ToLower(s), ToLower(sep))
    decreases |s|
  {
    if s != [] {
      var l := ToLower(s);
      assert l[0] == LowerChar(s[0]) && IsSpace(l[0]) == IsSpace(s[0]);
      if IsSpace(s[0]) {
        TrimStartOfLower(s);
        LowerCommutesWithReplace(TrimStart(s), sep);
        LowerAppend(sep, ReplaceSpaceRuns(TrimStart(s), sep));
      } else {
        assert ToLower(s)[1..] == ToLower(s[1..]);
        LowerCommutesWithReplace(s[1..], sep);
        LowerAppend([s[0]], ReplaceSpaceRuns(s[1..], sep));
      }
    }
  }

  lemma LowerAppend(a: string, b: string)
    ensures ToLower(a + b) == ToLower(a) + ToLower(b)
  {
    assert ToLower(a + b) == ToLower(a) + ToLower(b);
  }

  /** Lower-casing works character by character, so it peels off the first one. */
  lemma LowerTail(s: string)
    requires s != []
    ensures ToLower(s) == [LowerChar(s[0])] + ToLower(s[1..])
  {
  }

  /** Lower-casing maps white space to itself and nothing else to white space. */
  lemma LowerKeepsSpace(c: char)
    ensures IsSpace(LowerChar(c)) == IsSpace(c)
  {
  }

  /** Trimming the start looks at the first character only. */
  lemma TrimStartHead(s: string)
    requires s != []
    ensures TrimStart(s) == if IsSpace(s[0]) then TrimStart(s[1..]) else s
  {
  }

  /** The same, read through lower-casing. */
  lemma TrimStartLowerHead(s: string)
    requires s != []
    ensures TrimStart(ToLower(s)) == if IsSpace(s[0]) then TrimStart(ToLower(s[1..])) else ToLower(s)
  {
    LowerTail(s);
    LowerKeepsSpace(s[0]);
    TrimStartHead(ToLower(s));
  }

  lemma {:induction false} TrimStartOfLower(s: string)
    ensures TrimStart(ToLower(s)) == ToLower(TrimStart(s))
    decreases |s|
  {
    if s != [] {
      TrimStartLowerHead(s);
      TrimStartHead(s);
      if IsSpace(s[0]) {
        TrimStartOfLower(s[1..]);
      }
    }
  }

  // ---------------------------------------------------------------------------
  // Template strings

  /** A template filled in: text, value, text, value, ..., text. */
  function Interleave(texts: seq<string>, values: seq<string>): string
    requires |texts| == |values| + 1
  {
    if values == [] then texts[0] else texts[0] + values[0] + Interleave(texts[1..], values[1..])
  }

  lemma {:induction false} InterleaveStartsWithText(texts: seq<string>, values: seq<string>)
    requires |texts| == |values| + 1
    ensures StartsWith(Interleave(texts, values), texts[0])
  {
    if values != [] {
      var rest := Interleave(texts[1..], values[1..]);
      assert Interleave(texts, values) == texts[0] + (values[0] + rest);
    }
  }

  /** Every value appears in the filled-in template, followed by the text after it. */
  lemma {:induction false} ValueThenText(texts: seq<string>, values: seq<string>, i: nat)
    requires |texts| == |values| + 1 && i < |values|
    ensures Contains(Interleave(texts, values), values[i] + texts[i + 1])
  {
    var rest := Interleave(texts[1..], values[1..]);
    if i == 0 {
      InterleaveStartsWithText(texts[1..], values[1..]);
      var tail := rest[|texts[1]|..];
      assert rest == texts[1] + tail;
      assert Interleave(texts, values) == texts[0] + (values[0] + texts[1]) + tail;
      ContainsMiddle(texts[0], values[0] + texts[1], tail);
    } else {
      ValueThenText(texts[1..], values[1..], i - 1);
      ContainsSuffix(texts[0] + values[0], rest, values[i] + texts[i + 1]);
    }
  }

  lemma {:induction false} ContainsSuffix(x: string, s: string, t: string)
    requires Contains(s, t)
    ensures Contains(x + s, t)
    decreases |x|
  {
    if x != [] {
      assert (x + s)[1..] == x[1..] + s;
      ContainsSuffix(x[1..], s, t);
    } else {
      assert x + s == s;
    }
  }

  lemma {:induction false} ContainsPrefixOf(s: string, t: string, u: string)
    requires Contains(s, t + u)
    ensures Contains(s, t)
    decreases |s|
  {
    if StartsWith(s, t + u) {
      assert s[..|t|] == (t + u)[..|t|] == t;
    } else {
      ContainsPrefixOf(s[1..], t, u);
    }
  }
}
