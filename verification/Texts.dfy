/** Text as the stream parsers see it: words separated by white space. */
module Texts {

  // The white space of the "C" locale: blank, \t, \n, \v, \f and \r.
  predicate IsSpace(c: char) {
    c == ' ' || 9 <= c as int <= 13
  }

  predicate IsWord(w: string) {
    w != "" && forall i :: 0 <= i < |w| ==> !IsSpace(w[i])
  }

  predicate AllWords(ws: seq<string>) {
    forall i :: 0 <= i < |ws| ==> IsWord(ws[i])
  }

  /** The first position from `i` on that is not white space. */
  function SpaceEnd(s: string, i: nat): (j: nat)
    requires i <= |s|
    ensures i <= j <= |s| && (j < |s| ==> !IsSpace(s[j]))
    ensures WordsFrom(s, i) == WordsFrom(s, j)
    decreases |s| - i
  {
    if i == |s| || !IsSpace(s[i]) then i else SpaceEnd(s, i + 1)
  }

  /** The first position from `i` on that is white space. */
  function WordEnd(s: string, i: nat): (j: nat)
    requires i <= |s|
    ensures i <= j <= |s| && (i < |s| && !IsSpace(s[i]) ==> i < j)
    decreases |s| - i
  {
    if i == |s| || IsSpace(s[i]) then i else WordEnd(s, i + 1)
  }

  /** The words of `s` from position `i` on; a word that `i` cuts counts from there. */
  function WordsFrom(s: string, i: nat): seq<string>
    requires i <= |s|
    decreases |s| - i
  {
    if i == |s| then []
    else if IsSpace(s[i]) then WordsFrom(s, i + 1)
    else [s[i..WordEnd(s, i)]] + WordsFrom(s, WordEnd(s, i))
  }

  function Words(s: string): seq<string> {
    WordsFrom(s, 0)
  }

  lemma {:induction false} WordEndIs(s: string, i: nat, j: nat)
    requires i <= j <= |s|
    requires forall k :: i <= k < j ==> !IsSpace(s[k])
    requires j < |s| ==> IsSpace(s[j])
    ensures WordEnd(s, i) == j
    decreases j - i
  {
    if i < j {
      WordEndIs(s, i + 1, j);
    }
  }

  /** Every position inside a word has the same end of word ahead. */
  lemma {:induction false} WordEndInside(s: string, i: nat, k: nat)
    requires i <= k <= |s| && k <= WordEnd(s, i)
    ensures WordEnd(s, k) == WordEnd(s, i)
    ensures k < WordEnd(s, i) ==> k < |s| && !IsSpace(s[k])
    decreases k - i
  {
    if i < k {
      WordEndInside(s, i + 1, k);
    }
  }

  lemma {:induction false} WordsAreWords(s: string, i: nat)
    requires i <= |s|
    ensures AllWords(WordsFrom(s, i))
    decreases |s| - i
  {
    if i == |s| {
    } else if IsSpace(s[i]) {
      WordsAreWords(s, i + 1);
    } else {
      var j := WordEnd(s, i);
      WordsAreWords(s, j);
      forall k | i <= k < j ensures !IsSpace(s[k]) { WordEndInside(s, i, k); }
      assert IsWord(s[i..j]);
    }
  }

  /** The words, one blank between neighbours. */
  function Join(ws: seq<string>): string {
    if ws == [] then "" else if |ws| == 1 then ws[0] else ws[0] + " " + Join(ws[1..])
  }

  /** Text in front does not change the words behind it. */
  lemma {:induction false} WordsBehind(a: string, b: string, i: nat)
    requires i <= |b|
    ensures WordsFrom(a + b, |a| + i) == WordsFrom(b, i)
    decreases |b| - i
  {
    if i == |b| {
    } else if IsSpace(b[i]) {
      WordsBehind(a, b, i + 1);
    } else {
      var s, j := a + b, WordEnd(b, i);
      WordEndBehind(a, b, i);
      assert s[|a| + i..|a| + j] == b[i..j];
      WordsBehind(a, b, j);
      assert WordsFrom(s, |a| + i) == [b[i..j]] + WordsFrom(s, |a| + j);
    }
  }

  lemma {:induction false} WordEndBehind(a: string, b: string, i: nat)
    requires i <= |b|
    ensures WordEnd(a + b, |a| + i) == |a| + WordEnd(b, i)
    decreases |b| - i
  {
    if i < |b| && !IsSpace(b[i]) {
      WordEndBehind(a, b, i + 1);
    }
  }

  lemma {:induction false} WordsOfJoin(ws: seq<string>)
    requires AllWords(ws)
    ensures Words(Join(ws)) == ws
  {
    if ws != [] {
      var s, w := Join(ws), ws[0];
      WordEndIs(s, 0, |w|);
      assert s[0..|w|] == w;
      assert WordsFrom(s, 0) == [w] + WordsFrom(s, |w|);
      if |ws| > 1 {
        WordsOfJoin(ws[1..]);
        WordsBehind(w + " ", Join(ws[1..]), 0);
        assert WordsFrom(s, |w|) == WordsFrom(s, |w| + 1);
      }
    }
  }

  // ----- Layout.

  /** Blanks, tabs and line ends. */
  const WHITE_SPACE: string := " \t\n\r\U{0B}\U{0C}"

  predicate IsGap(s: string) {
    forall i :: 0 <= i < |s| ==> s[i] in WHITE_SPACE
  }

  /** Gaps around the words, of which only the first and the last may be empty. */
  predicate IsLayout(gaps: seq<string>, ws: seq<string>) {
    && |gaps| == |ws| + 1
    && (forall i :: 0 <= i < |gaps| ==> IsGap(gaps[i]))
    && (forall i :: 0 < i < |ws| ==> gaps[i] != "")
  }

  function Layout(gaps: seq<string>, ws: seq<string>): string
    requires |gaps| == |ws| + 1
  {
    if ws == [] then gaps[0] else gaps[0] + (ws[0] + Layout(gaps[1..], ws[1..]))
  }

  lemma GapsAreSpaces(c: char)
    ensures c in WHITE_SPACE <==> IsSpace(c)
  {
    assert WHITE_SPACE[0] == ' ' && WHITE_SPACE[1] == '\t' && WHITE_SPACE[2] == '\n';
    assert WHITE_SPACE[3] == '\r' && WHITE_SPACE[4] == '\U{0B}' && WHITE_SPACE[5] == '\U{0C}';
  }

  lemma {:induction false} GapInFront(gap: string, s: string, i: nat)
    requires IsGap(gap) && i <= |gap|
    ensures WordsFrom(gap + s, i) == Words(s)
    decreases |gap| - i
  {
    if i < |gap| {
      GapsAreSpaces(gap[i]);
      GapInFront(gap, s, i + 1);
    } else {
      WordsBehind(gap, s, 0);
    }
  }

  lemma WordInFront(w: string, s: string)
    requires IsWord(w) && (s != "" ==> IsSpace(s[0]))
    ensures Words(w + s) == [w] + Words(s)
  {
    var t := w + s;
    WordEndIs(t, 0, |w|);
    assert t[0..|w|] == w;
    WordsBehind(w, s, 0);
  }

  /** Whatever white space surrounds them, the words of a text are its words. */
  lemma {:induction false} WordsOfLayout(gaps: seq<string>, ws: seq<string>)
    requires IsLayout(gaps, ws) && AllWords(ws)
    ensures Words(Layout(gaps, ws)) == ws
  {
    if ws == [] {
      GapInFront(gaps[0], "", 0);
      assert gaps[0] + "" == gaps[0];
    } else {
      var rest := Layout(gaps[1..], ws[1..]);
      assert gaps[1] in gaps[1..];
      WordsOfLayout(gaps[1..], ws[1..]);
      LayoutBegins(gaps[1..], ws[1..]);
      WordInFront(ws[0], rest);
      GapInFront(gaps[0], ws[0] + rest, 0);
      assert ws == [ws[0]] + ws[1..];
    }
  }

  lemma LayoutBegins(gaps: seq<string>, ws: seq<string>)
    requires |gaps| == |ws| + 1 && IsGap(gaps[0]) && (ws != [] ==> gaps[0] != "")
    ensures var s := Layout(gaps, ws); s != "" ==> IsSpace(s[0])
  {
    if gaps[0] != "" {
      GapsAreSpaces(gaps[0][0]);
    }
  }

  /** Every text is a layout of its words. */
  lemma {:induction false} EveryTextIsALayout(s: string, i: nat) returns (gaps: seq<string>)
    requires i <= |s|
    ensures IsLayout(gaps, WordsFrom(s, i)) && Layout(gaps, WordsFrom(s, i)) == s[i..]
    ensures i < |s| && IsSpace(s[i]) ==> gaps[0] != ""
    decreases |s| - i
  {
    if i == |s| {
      gaps := [""];
    } else if IsSpace(s[i]) {
      gaps := EveryTextIsALayout(s, i + 1);
      GapsAreSpaces(s[i]);
      var wider := [s[i]] + gaps[0];
      WiderGap(gaps, WordsFrom(s, i + 1), wider);
      assert s[i..] == [s[i]] + s[i + 1..];
      gaps := [wider] + gaps[1..];
    } else {
      var j := WordEnd(s, i);
      WordEndInside(s, i, j);
      var more := EveryTextIsALayout(s, j);
      gaps := [""] + more;
      var ws := WordsFrom(s, i);
      assert ws[1..] == WordsFrom(s, j) && gaps[1..] == more;
      assert Layout(gaps, ws) == "" + (s[i..j] + s[j..]);
      EndsAtSpace(s, i);
      assert |WordsFrom(s, j)| > 0 ==> more[0] != "";
    }
  }

  lemma WiderGap(gaps: seq<string>, ws: seq<string>, wider: string)
    requires IsLayout(gaps, ws) && IsGap(wider)
    ensures var gaps' := [wider] + gaps[1..];
            IsLayout(gaps', ws) &&
            (|wider| == |gaps[0]| + 1 && wider[1..] == gaps[0] ==> Layout(gaps', ws) == [wider[0]] + Layout(gaps, ws))
  {
    var gaps' := [wider] + gaps[1..];
    assert gaps'[1..] == gaps[1..];
    if |wider| == |gaps[0]| + 1 && wider[1..] == gaps[0] {
      assert wider == [wider[0]] + gaps[0];
    }
  }

  lemma {:induction false} EndsAtSpace(s: string, i: nat)
    requires i <= |s|
    ensures WordEnd(s, i) < |s| ==> IsSpace(s[WordEnd(s, i)])
    decreases |s| - i
  {
    if i < |s| && !IsSpace(s[i]) {
      EndsAtSpace(s, i + 1);
    }
  }
}
