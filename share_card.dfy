/** The shareable roast card: the greedy word wrap of the roast on the canvas, the
    download and share file name, the texts offered for copying and sharing, and
    the guard that keeps one download or share in flight. */
module ShareCard {
  import opened Common

  // ---------------------------------------------------------------------------
  // Splitting on spaces

  /** `s.split(" ")`: the pieces between single spaces, empty pieces included. */
  function SplitSpaces(s: string): (r: seq<string>)
    ensures r != []
  {
    if s == [] then [""]
    else if s[0] == ' ' then [""] + SplitSpaces(s[1..])
    else var rest := SplitSpaces(s[1..]); [[s[0]] + rest[0]] + rest[1..]
  }

  /** `parts.join(" ")`. */
  function JoinSpaces(parts: seq<string>): string
    requires parts != []
  {
    if |parts| == 1 then parts[0] else parts[0] + " " + JoinSpaces(parts[1..])
  }

  /** Splitting loses nothing: joining the pieces back with spaces gives the text, and no
      piece holds a space. */
  lemma {:induction false} SplitJoin(s: string)
    ensures JoinSpaces(SplitSpaces(s)) == s
    ensures forall k :: 0 <= k < |SplitSpaces(s)| ==> ' ' !in SplitSpaces(s)[k]
  {
    if s != [] {
      var rest := SplitSpaces(s[1..]);
      assert JoinSpaces(rest) == s[1..] && forall k :: 0 <= k < |rest| ==> ' ' !in rest[k] by {
        SplitJoin(s[1..]);
      }
      assert s == [s[0]] + s[1..];
      if s[0] == ' ' {
        assert SplitSpaces(s) == [""] + rest;
        assert JoinSpaces([""] + rest) == "" + " " + JoinSpaces(rest) by {
          assert ([""] + rest)[1..] == rest;
        }
      } else {
        var r := SplitSpaces(s);
        assert r == [[s[0]] + rest[0]] + rest[1..];
        assert ' ' !in [s[0]] + rest[0];
        if |rest| == 1 {
          assert JoinSpaces(r) == [s[0]] + rest[0];
        } else {
          assert JoinSpaces(r) == ([s[0]] + rest[0]) + " " + JoinSpaces(rest[1..]) by {
            assert r[1..] == rest[1..];
          }
          assert JoinSpaces(rest) == rest[0] + " " + JoinSpaces(rest[1..]);
        }
        forall k | 0 <= k < |r|
          ensures ' ' !in r[k]
        {
          if k > 0 {
            assert r[k] == rest[k];
          }
        }
      }
    }
  }

  // ---------------------------------------------------------------------------
  // Word wrap

  const MaxWidth := 900
  const LineHeight := 36
  /** Where the roast starts: the image's top (80) plus its size (900) plus 120. */
  const RoastTop := 1100

  /** The text of a line holding `words`: each word followed by a space. */
  function Line(words: seq<string>): (r: string)
    ensures r == [] <==> words == []
  {
    if words == [] then [] else Line(words[..|words| - 1]) + words[|words| - 1] + " "
  }

  /** The words of several lines, in order. */
  function Flatten(groups: seq<seq<string>>): seq<string>
  {
    if groups == [] then [] else Flatten(groups[..|groups| - 1]) + groups[|groups| - 1]
  }

  /** The loop's test: the current line is not empty and the candidate line, the current
      one with `word` added, is wider than the limit. `width` measures the text of a line
      from its words; the canvas measure of a string `m` gives `MeasureLine(m)`. */
  predicate Breaks(current: seq<string>, word: string, width: seq<string> -> int)
  {
    current != [] && width(current + [word]) > MaxWidth
  }

  /** The width of a line's text, measured by `measure`. */
  function MeasureLine(measure: string -> int): seq<string> -> int
  {
    words => measure(Line(words))
  }

  /** One turn of the loop over the lines so far: the word either starts a new line or
      joins the last one. */
  function Extend(prev: seq<seq<string>>, word: string, width: seq<string> -> int): (r: seq<seq<string>>)
    ensures r != []
  {
    if prev == [] then [[word]]
    else if Breaks(prev[|prev| - 1], word, width) then prev + [[word]]
    else prev[..|prev| - 1] + [prev[|prev| - 1] + [word]]
  }

  /** The words of each line the loop draws for `words`, the last line being the one
      drawn after the loop. */
  function Lines(words: seq<string>, width: seq<string> -> int): (r: seq<seq<string>>)
    ensures words != [] ==> r != []
  {
    if words == [] then [] else Extend(Lines(words[..|words| - 1], width), words[|words| - 1], width)
  }

  /** The next line starts with a word that did not fit after the current one. */
  predicate ForcedBreak(current: seq<string>, next: seq<string>, width: seq<string> -> int)
  {
    next != [] && Breaks(current, next[0], width)
  }

  /** Every word after a line's first was kept on it because its candidate fitted. */
  predicate FitsAfterFirst(line: seq<string>, width: seq<string> -> int)
  {
    forall k :: 1 <= k < |line| ==> !Breaks(line[..k], line[k], width)
  }

  lemma FlattenSnoc(groups: seq<seq<string>>, g: seq<string>)
    ensures Flatten(groups + [g]) == Flatten(groups) + g
  {
    assert (groups + [g])[..|groups|] == groups;
  }

  /** No word is dropped or moved. */
  lemma {:induction false} LinesKeepWords(words: seq<string>, width: seq<string> -> int)
    ensures Flatten(Lines(words, width)) == words
  {
    if words != [] {
      var n := |words|;
      var p, word := words[..n - 1], words[n - 1];
      var prev := Lines(p, width);
      assert Flatten(prev) == p by {
        LinesKeepWords(p, width);
      }
      assert words == p + [word];
      if prev == [] {
        FlattenSnoc([], [word]);
      } else if Breaks(prev[|prev| - 1], word, width) {
        FlattenSnoc(prev, [word]);
      } else {
        var m := |prev|;
        var init, last := prev[..m - 1], prev[m - 1];
        assert Flatten(prev) == Flatten(init) + last by {
          assert prev == init + [last];
          FlattenSnoc(init, last);
        }
        assert Flatten(Lines(words, width)) == Flatten(init) + (last + [word]) by {
          FlattenSnoc(init, last + [word]);
        }
        assert Flatten(init) + (last + [word]) == (Flatten(init) + last) + [word];
      }
    }
  }

  /** No line is empty. */
  lemma {:induction false} LinesNonEmpty(words: seq<string>, width: seq<string> -> int)
    ensures forall i :: 0 <= i < |Lines(words, width)| ==> Lines(words, width)[i] != []
  {
    if words != [] {
      var n := |words|;
      LinesNonEmpty(words[..n - 1], width);
    }
  }

  /** The line after line `i` starts with a word that did not fit after line `i`. */
  lemma {:induction false} LinesForcedAt(words: seq<string>, width: seq<string> -> int, i: nat)
    requires i + 1 < |Lines(words, width)|
    ensures ForcedBreak(Lines(words, width)[i], Lines(words, width)[i + 1], width)
  {
    var n := |words|;
    var p, word := words[..n - 1], words[n - 1];
    var prev := Lines(p, width);
    var lines := Lines(words, width);
    var m := |prev|;
    LinesNonEmpty(p, width);
    if Breaks(prev[m - 1], word, width) {
      assert lines == prev + [[word]];
      if i + 1 < m {
        LinesForcedAt(p, width, i);
      }
    } else {
      assert lines == prev[..m - 1] + [prev[m - 1] + [word]];
      LinesForcedAt(p, width, i);
      if i + 1 == m - 1 {
        assert lines[i + 1][0] == prev[m - 1][0];
      } else {
        assert lines[i + 1] == prev[i + 1];
      }
    }
  }

  /** A line ends only where the next line's first word made the candidate too wide. */
  lemma LinesBreakOnlyWhenForced(words: seq<string>, width: seq<string> -> int)
    ensures var lines := Lines(words, width);
            forall i :: 0 <= i < |lines| - 1 ==> ForcedBreak(lines[i], lines[i + 1], width)
  {
    forall i | 0 <= i < |Lines(words, width)| - 1
      ensures ForcedBreak(Lines(words, width)[i], Lines(words, width)[i + 1], width)
    {
      LinesForcedAt(words, width, i);
    }
  }

  /** Line `i` kept each word after its first because the candidate fitted. */
  lemma {:induction false} LinesFitAt(words: seq<string>, width: seq<string> -> int, i: nat)
    requires i < |Lines(words, width)|
    ensures FitsAfterFirst(Lines(words, width)[i], width)
  {
    var n := |words|;
    var p, word := words[..n - 1], words[n - 1];
    var prev := Lines(p, width);
    var lines := Lines(words, width);
    var m := |prev|;
    if m == 0 {
      assert lines == [[word]];
    } else if Breaks(prev[m - 1], word, width) {
      assert lines == prev + [[word]];
      if i < m {
        LinesFitAt(p, width, i);
      } else {
        assert lines[i] == [word];
      }
    } else {
      assert lines == prev[..m - 1] + [prev[m - 1] + [word]];
      if i < m - 1 {
        LinesFitAt(p, width, i);
        assert lines[i] == prev[i];
      } else {
        LinesFitAt(p, width, m - 1);
        var last := prev[m - 1];
        var grown := last + [word];
        assert lines[i] == grown;
        forall k | 1 <= k < |grown|
          ensures !Breaks(grown[..k], grown[k], width)
        {
          if k < |last| {
            assert grown[..k] == last[..k];
          } else {
            assert grown[..k] == last;
          }
        }
      }
    }
  }

  /** Every word after a line's first fitted; in particular a single word too wide for
      the limit gets a line of its own instead of being dropped. */
  lemma LinesFit(words: seq<string>, width: seq<string> -> int)
    ensures var lines := Lines(words, width);
            forall i :: 0 <= i < |lines| ==> FitsAfterFirst(lines[i], width)
  {
    forall i | 0 <= i < |Lines(words, width)|
      ensures FitsAfterFirst(Lines(words, width)[i], width)
    {
      LinesFitAt(words, width, i);
    }
  }

  /** The texts drawn for some lines: each line's text, trimmed. */
  function DrawnTexts(lines: seq<seq<string>>): (r: seq<string>)
    ensures |r| == |lines|
  {
    if lines == [] then [] else DrawnTexts(lines[..|lines| - 1]) + [Trim(Line(lines[|lines| - 1]))]
  }

  /** The y coordinate of each of `n` lines. */
  function LineTops(n: nat): (r: seq<int>)
    ensures |r| == n
  {
    if n == 0 then [] else LineTops(n - 1) + [RoastTop + LineHeight * (n - 1)]
  }

  /** The break test on words is the canvas test on the candidate line. */
  lemma BreaksMeasured(current: seq<string>, word: string, measure: string -> int)
    ensures Breaks(current, word, MeasureLine(measure))
            <==> current != [] && measure(Line(current + [word])) > MaxWidth
  {
  }

  /** A word appended to a line is drawn after the line's text. */
  lemma LineSnoc(current: seq<string>, word: string)
    ensures Line(current + [word]) == Line(current) + word + " "
  {
    assert (current + [word])[..|current|] == current;
  }

  /** A line of one word. */
  lemma LineSingle(word: string)
    ensures Line([word]) == word + " "
  {
    assert [word][..0] == [];
    assert [] + word + " " == word + " ";
  }

  /** One step of the wrap loop: the next word either starts a new line, when the
      candidate is too wide, or joins the last line. */
  lemma WrapStep(words: seq<string>, i: nat, width: seq<string> -> int,
                 done: seq<seq<string>>, current: seq<string>)
    requires i < |words|
    requires Lines(words[..i], width) == if i == 0 then [] else done + [current]
    requires i == 0 ==> current == [] && done == []
    ensures Breaks(current, words[i], width) ==> Lines(words[..i + 1], width) == (done + [current]) + [[words[i]]]
    ensures !Breaks(current, words[i], width) ==> Lines(words[..i + 1], width) == done + [current + [words[i]]]
  {
    assert words[..i + 1][..i] == words[..i];
    if i > 0 {
      assert (done + [current])[..|done|] == done;
    } else {
      assert current + [words[i]] == [words[i]];
    }
  }

  /** One turn of the wrap loop on the canvas: when the candidate line is too wide and
      the current line is not empty, the current line is drawn and the word starts the
      next one; otherwise the candidate becomes the current line. */
  lemma WrapTurn(words: seq<string>, i: nat, measure: string -> int,
                 done: seq<seq<string>>, current: seq<string>)
    requires i < |words|
    requires Lines(words[..i], MeasureLine(measure)) == if i == 0 then [] else done + [current]
    requires i == 0 ==> current == [] && done == []
    ensures var word, line := words[i], Line(current);
      var lines := Lines(words[..i + 1], MeasureLine(measure));
      if measure(line + word + " ") > MaxWidth && line != "" then
        && lines == (done + [current]) + [[word]]
        && DrawnTexts(done + [current]) == DrawnTexts(done) + [Trim(line)]
        && LineTops(|done| + 1) == LineTops(|done|) + [RoastTop + LineHeight * |done|]
        && Line([word]) == word + " "
      else
        && lines == done + [current + [word]]
        && Line(current + [word]) == line + word + " "
  {
    WrapStep(words, i, MeasureLine(measure), done, current);
    LineSnoc(current, words[i]);
    BreaksMeasured(current, words[i], measure);
    DrawnSnoc(done, current);
    LineSingle(words[i]);
  }

  /** Drawing one more line appends its trimmed text and its y coordinate. */
  lemma DrawnSnoc(done: seq<seq<string>>, current: seq<string>)
    ensures DrawnTexts(done + [current]) == DrawnTexts(done) + [Trim(Line(current))]
    ensures LineTops(|done| + 1) == LineTops(|done|) + [RoastTop + LineHeight * |done|]
  {
    assert (done + [current])[..|done|] == done;
  }

  /** After the loop: the last line is drawn, and it is the last of the lines. */
  lemma WrapEnd(words: seq<string>, width: seq<string> -> int, done: seq<seq<string>>, current: seq<string>)
    requires Lines(words, width) == done + [current]
    ensures var lines := Lines(words, width);
      && DrawnTexts(lines) == DrawnTexts(done) + [Trim(Line(current))]
      && LineTops(|lines|) == LineTops(|done|) + [RoastTop + LineHeight * |done|]
      && |done| == |lines| - 1
  {
    DrawnSnoc(done, current);
  }

  /** The wrap loop of `generateShareableImage`: the texts it draws, at which y, and
      the y after the last line. */
  method WrapRoast(roast: string, measure: string -> int) returns (texts: seq<string>, ys: seq<int>, y: int)
    ensures var lines := Lines(SplitSpaces(roast), MeasureLine(measure));
            && texts == DrawnTexts(lines)
            && ys == LineTops(|lines|)
            && y == RoastTop + LineHeight * (|lines| - 1)
  {
    ghost var width := MeasureLine(measure);
    var words := SplitSpaces(roast);
    var line := "";
    y := RoastTop;
    texts, ys := [], [];
    ghost var done: seq<seq<string>> := [];
    ghost var current: seq<string> := [];
    var i := 0;
    while i < |words|
      invariant 0 <= i <= |words|
      invariant Lines(words[..i], width) == if i == 0 then [] else done + [current]
      invariant line == Line(current) && (i == 0 ==> current == [] && done == [])
      invariant texts == DrawnTexts(done) && ys == LineTops(|done|)
      invariant y == RoastTop + LineHeight * |done|
    {
      var word := words[i];
      var testLine := line + word + " ";
      WrapTurn(words, i, measure, done, current);
      if measure(testLine) > MaxWidth && line != "" {
        texts, ys := texts + [Trim(line)], ys + [y];
        done, current := done + [current], [word];
        line := word + " ";
        y := y + LineHeight;
      } else {
        current := current + [word];
        line := testLine;
      }
      i := i + 1;
    }
    assert words[..i] == words;
    WrapEnd(words, width, done, current);
    texts, ys := texts + [Trim(line)], ys + [y];
  }

  /** The drawn lines, before trimming, are the words each followed by a space. */
  lemma {:induction false} LinesSpellWords(groups: seq<seq<string>>)
    ensures ConcatLines(groups) == Line(Flatten(groups))
  {
    if groups != [] {
      var n := |groups|;
      LinesSpellWords(groups[..n - 1]);
      LineAppend(Flatten(groups[..n - 1]), groups[n - 1]);
    }
  }

  /** The texts of the lines, joined. */
  function ConcatLines(groups: seq<seq<string>>): string
  {
    if groups == [] then [] else ConcatLines(groups[..|groups| - 1]) + Line(groups[|groups| - 1])
  }

  lemma {:induction false} LineAppend(a: seq<string>, b: seq<string>)
    ensures Line(a + b) == Line(a) + Line(b)
    decreases |b|
  {
    if b == [] {
      assert a + b == a;
    } else {
      var n := |b|;
      assert (a + b)[..|a + b| - 1] == a + b[..n - 1];
      LineAppend(a, b[..n - 1]);
    }
  }

  /** Together: the lines of a roast spell out its space-separated words in order, each
      followed by a space. */
  lemma WrapSpellsRoast(roast: string, width: seq<string> -> int)
    ensures ConcatLines(Lines(SplitSpaces(roast), width)) == Line(SplitSpaces(roast))
  {
    LinesKeepWords(SplitSpaces(roast), width);
    LinesSpellWords(Lines(SplitSpaces(roast), width));
  }

  // ---------------------------------------------------------------------------
  // File names and texts

  const CardSuffix := "-weather-roast.png"

  /** The card's file name: the lower-cased city with white-space runs as `-`. */
  function CardFileName(city: string): string
  {
    ReplaceSpaceRuns(ToLower(city), "-") + CardSuffix
  }

  /** The name ends in "-weather-roast.png" and holds no white space before it; replacing
      the runs first and lower-casing after gives the same name, and a city without white
      space is only lower-cased. */
  lemma CardFileNameClean(city: string)
    ensures var name := CardFileName(city);
      && |name| >= |CardSuffix| && name[|name| - |CardSuffix|..] == CardSuffix
      && (forall k :: 0 <= k < |name| - |CardSuffix| ==> !IsSpace(name[k]))
      && name == ToLower(ReplaceSpaceRuns(city, "-")) + CardSuffix
      && ((forall k :: 0 <= k < |city| ==> !IsSpace(city[k])) ==> name == ToLower(city) + CardSuffix)
  {
    var lowered := ToLower(city);
    var body := ReplaceSpaceRuns(lowered, "-");
    var name := body + CardSuffix;
    assert NoSpaceIn("-") by {
      assert forall k :: 0 <= k < |"-"| ==> "-"[k] == '-';
    }
    assert forall k :: 0 <= k < |body| ==> !IsSpace(body[k]) by {
      ReplaceSpaceRunsClean(lowered, "-");
    }
    forall k | 0 <= k < |name| - |CardSuffix|
      ensures !IsSpace(name[k])
    {
      assert name[k] == body[k];
    }
    assert name[|name| - |CardSuffix|..] == CardSuffix;
    assert body == ToLower(ReplaceSpaceRuns(city, "-")) by {
      LowerCommutesWithReplace(city, "-");
      assert ToLower("-") == "-";
    }
    if forall k :: 0 <= k < |city| ==> !IsSpace(city[k]) {
      forall k | 0 <= k < |lowered|
        ensures !IsSpace(lowered[k])
      {
        LowerKeepsSpace(city[k]);
      }
      ReplaceSpaceRunsClean(lowered, "-");
    }
  }

  /** No character of `s` is white space. */
  predicate NoSpaceIn(s: string)
  {
    !exists k :: 0 <= k < |s| && IsSpace(s[k])
  }

  const SiteLine := "nano-weather.vercel.app"
  const CopySuffix := "\n\nCheck your city's weather roast at nano-weather.vercel.app"
  const ShareSuffix := "\n\nGet roasted at nano-weather.vercel.app"

  /** `handleCopyText`'s clipboard text. */
  function CopyText(shareText: string): string
  {
    shareText + CopySuffix
  }

  /** The text of the tweet and of the native share. */
  function ShareText(shareText: string): string
  {
    shareText + ShareSuffix
  }

  /** Both texts start with the roast's share text, which can be read back from them. */
  lemma SharedTextsRecoverRoast(shareText: string)
    ensures StartsWith(CopyText(shareText), shareText) && CopyText(shareText)[|shareText|..] == CopySuffix
    ensures StartsWith(ShareText(shareText), shareText) && ShareText(shareText)[|shareText|..] == ShareSuffix
  {
  }

  const TweetIntent := "https://twitter.com/intent/tweet?text="

  /** The tweet intent: `encode` is `encodeURIComponent`. */
  function TweetUrl(shareText: string, encode: string -> string): string
  {
    TweetIntent + encode(ShareText(shareText))
  }

  /** The intent address carries the share text: after the fixed prefix comes the encoded
      share text, and any decoder that undoes `encode` gives back the roast's share
      text followed by the suffix. */
  lemma TweetUrlRecoversRoast(shareText: string, encode: string -> string, decode: string -> string)
    requires forall x :: decode(encode(x)) == x
    ensures var url := TweetUrl(shareText, encode);
      && StartsWith(url, TweetIntent)
      && var text := decode(url[|TweetIntent|..]);
      && StartsWith(text, shareText) && text[|shareText|..] == ShareSuffix
  {
    var url := TweetUrl(shareText, encode);
    assert url[|TweetIntent|..] == encode(ShareText(shareText));
    SharedTextsRecoverRoast(shareText);
  }

  /** What `navigator.share` receives: the card file when the browser can share files,
      the site's address otherwise. */
  datatype ShareData = ShareData(title: string, text: string, fileName: Option<string>, url: Option<string>)

  function ShareRequest(city: string, shareText: string, canShareFiles: bool): (d: ShareData)
    ensures d.title == city + " Weather Roast" && d.text == ShareText(shareText)
    ensures canShareFiles <==> d.fileName == Some(CardFileName(city))
    ensures canShareFiles <==> d.url.None?
  {
    if canShareFiles then ShareData(city + " Weather Roast", ShareText(shareText), Some(CardFileName(city)), None)
    else ShareData(city + " Weather Roast", ShareText(shareText), None, Some("https://nano-weather.vercel.app"))
  }

  // ---------------------------------------------------------------------------
  // The sharing guard

  class Card {
    var sharing: bool

    constructor ()
      ensures !sharing
    {
      sharing := false;
    }

    /** The start of `handleDownload` and `handleNativeShare`: a call while another is in
        flight returns at once; otherwise it takes the flag. */
    method Begin() returns (started: bool)
      modifies this
      ensures started <==> !old(sharing)
      ensures sharing
    {
      if sharing {
        return false;
      }
      sharing := true;
      return true;
    }

    /** The `finally` of both handlers, whether the work succeeded or threw. */
    method End()
      modifies this
      ensures !sharing
    {
      sharing := false;
    }
  }
}
