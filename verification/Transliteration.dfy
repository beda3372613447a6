/** Text for clients that take ASCII only, ANSI escape sequences let through untouched. */
module Transliteration {

  const ESC: char := '\U{001b}'
  const NEWLINE: char := '\n'

  function IndexOf(text: string, c: char): (n: nat)
    ensures n <= |text| && c !in text[..n]
    ensures n < |text| ==> text[n] == c
  {
    if text == [] || text[0] == c then 0
    else
      var n := 1 + IndexOf(text[1..], c);
      assert text[..n] == [text[0]] + text[1..][..n - 1];
      n
  }

  /** Whether a control sequence ends here. */
  predicate IsFinal(c: char) {
    '@' <= c <= '~'
  }

  /** How far a control sequence runs from after its bracket, its final character included. */
  function SequenceLen(s: string): (n: nat)
    ensures n <= |s|
  {
    if s == [] then 0 else if IsFinal(s[0]) then 1 else 1 + SequenceLen(s[1..])
  }

  /** The length of the escape a string starts with: a control sequence, or a lone ESC. */
  function EscapeLen(s: string): (n: nat)
    requires s != []
    ensures 1 <= n <= |s|
  {
    if |s| < 2 || s[1] != '[' then 1 else 2 + SequenceLen(s[2..])
  }

  /** Line by line, so that no line end passes through `deunicode`. */
  function Plain(deunicode: string -> string, text: string): string
    decreases |text|
  {
    var n := IndexOf(text, NEWLINE);
    if n == |text| then deunicode(text) else deunicode(text[..n]) + [NEWLINE] + Plain(deunicode, text[n + 1..])
  }

  predicate HasEscape(text: string) {
    IndexOf(text, ESC) < |text|
  }

  /** The text before its first escape, that escape, and what follows. */
  function CutAtEscape(text: string): (cut: (string, string, string))
    requires HasEscape(text)
    ensures text == cut.0 + cut.1 + cut.2 && |cut.2| < |text|
  {
    var n := IndexOf(text, ESC);
    var m := n + EscapeLen(text[n..]);
    (text[..n], text[n..m], text[m..])
  }

  function Transliterated(deunicode: string -> string, text: string): string
    decreases |text|
  {
    if !HasEscape(text) then Plain(deunicode, text)
    else
      var (plain, escape, rest) := CutAtEscape(text);
      Plain(deunicode, plain) + escape + Transliterated(deunicode, rest)
  }

  method Transliterate(deunicode: string -> string, text: string) returns (out: string)
    ensures out == Transliterated(deunicode, text)
  {
    hide *;
    out := [];
    var rest := text;
    assert out + Transliterated(deunicode, rest) == Transliterated(deunicode, text);
    while HasEscape(rest)
      invariant out + Transliterated(deunicode, rest) == Transliterated(deunicode, text)
      decreases |rest|
    {
      var (plain, escape, after) := CutAtEscape(rest);
      OneEscapeOn(deunicode, rest, out);
      out := out + Plain(deunicode, plain) + escape;
      rest := after;
    }
    NoEscapeLeft(deunicode, rest);
    out := out + Plain(deunicode, rest);
  }

  lemma OneEscapeOn(deunicode: string -> string, text: string, out: string)
    requires HasEscape(text)
    ensures var (plain, escape, rest) := CutAtEscape(text);
            out + Transliterated(deunicode, text) == out + Plain(deunicode, plain) + escape + Transliterated(deunicode, rest)
  {
    hide CutAtEscape, Plain, HasEscape;
  }

  lemma NoEscapeLeft(deunicode: string -> string, text: string)
    requires !HasEscape(text)
    ensures Transliterated(deunicode, text) == Plain(deunicode, text)
  {
  }

  // What comes through.

  /** A control sequence: ESC, a bracket, parameters, a final character. */
  ghost predicate IsSequence(s: string) {
    && |s| >= 3 && s[0] == ESC && s[1] == '[' && IsFinal(s[|s| - 1])
    && forall i :: 2 <= i < |s| - 1 ==> !IsFinal(s[i])
  }

  /** Words, each followed by an escape sequence, and words at the end. */
  function Written(segments: seq<(string, string)>, last: string): string {
    if segments == [] then last else segments[0].0 + segments[0].1 + Written(segments[1..], last)
  }

  function InAscii(deunicode: string -> string, segments: seq<(string, string)>, last: string): string {
    if segments == [] then Plain(deunicode, last)
    else Plain(deunicode, segments[0].0) + segments[0].1 + InAscii(deunicode, segments[1..], last)
  }

  lemma {:induction false} FirstEscape(words: string, rest: string)
    requires ESC !in words && rest != [] && rest[0] == ESC
    ensures IndexOf(words + rest, ESC) == |words|
  {
    if words == [] {
      assert words + rest == rest;
    } else {
      FirstEscape(words[1..], rest);
      assert (words + rest)[1..] == words[1..] + rest;
    }
  }

  lemma NoEscape(words: string)
    requires ESC !in words
    ensures IndexOf(words, ESC) == |words|
  {
  }

  lemma {:induction false} SequenceRunsToItsFinal(parameters: string, rest: string)
    requires parameters != [] && IsFinal(parameters[|parameters| - 1])
    requires forall i :: 0 <= i < |parameters| - 1 ==> !IsFinal(parameters[i])
    ensures SequenceLen(parameters + rest) == |parameters|
    decreases |parameters|
  {
    var s := parameters + rest;
    if |parameters| > 1 {
      SequenceRunsToItsFinal(parameters[1..], rest);
      assert s[1..] == parameters[1..] + rest;
    }
  }

  /** Colours survive: every escape sequence comes through as it is, and the words between them transliterated. */
  lemma {:induction false} EscapesSurvive(deunicode: string -> string, segments: seq<(string, string)>, last: string)
    requires forall s :: s in segments ==> ESC !in s.0 && IsSequence(s.1)
    requires ESC !in last
    ensures Transliterated(deunicode, Written(segments, last)) == InAscii(deunicode, segments, last)
    decreases |segments|
  {
    hide Plain;
    if segments == [] {
      NoEscape(last);
    } else {
      var (words, escape) := segments[0];
      assert segments[0] in segments;
      var rest := Written(segments[1..], last);
      var text := words + (escape + rest);
      assert Written(segments, last) == text;
      FirstEscape(words, escape + rest);
      SequenceRunsToItsFinal(escape[2..], rest);
      assert (escape + rest)[2..] == escape[2..] + rest;
      assert text[|words|..] == escape + rest && text[..|words|] == words;
      assert text[|words|..|words| + |escape|] == escape && text[|words| + |escape|..] == rest;
      assert CutAtEscape(text) == (words, escape, rest);
      EscapesSurvive(deunicode, segments[1..], last);
    }
  }

  function Lines(text: string): nat {
    if text == [] then 0 else (if text[0] == NEWLINE then 1 else 0) + Lines(text[1..])
  }

  lemma {:induction false} LinesConcat(a: string, b: string)
    ensures Lines(a + b) == Lines(a) + Lines(b)
  {
    if a == [] {
      assert a + b == b;
    } else {
      LinesConcat(a[1..], b);
      assert (a + b)[1..] == a[1..] + b;
    }
  }

  lemma {:induction false} NoLines(text: string)
    requires NEWLINE !in text
    ensures Lines(text) == 0
  {
    if text != [] { NoLines(text[1..]); }
  }

  lemma LinesOfThree(a: string, b: string, c: string)
    ensures Lines(a + b + c) == Lines(a) + Lines(b) + Lines(c)
  {
    LinesConcat(a + b, c);
    LinesConcat(a, b);
  }

  /** No line is joined or split, as long as transliteration of a line adds none. */
  lemma {:induction false} PlainKeepsLines(deunicode: string -> string, text: string)
    requires forall t: string :: NEWLINE !in deunicode(t)
    ensures Lines(Plain(deunicode, text)) == Lines(text)
    decreases |text|
  {
    hide Lines;
    var n := IndexOf(text, NEWLINE);
    NoLines(deunicode(text[..n]));
    NoLines(text[..n]);
    if n == |text| {
      assert text[..n] == text;
    } else {
      PlainKeepsLines(deunicode, text[n + 1..]);
      assert text == text[..n] + [NEWLINE] + text[n + 1..];
      LinesOfThree(text[..n], [NEWLINE], text[n + 1..]);
      LinesOfThree(deunicode(text[..n]), [NEWLINE], Plain(deunicode, text[n + 1..]));
    }
  }

  lemma {:induction false} TransliterationKeepsLines(deunicode: string -> string, text: string)
    requires forall t: string :: NEWLINE !in deunicode(t)
    ensures Lines(Transliterated(deunicode, text)) == Lines(text)
    decreases |text|
  {
    hide Plain, Lines, CutAtEscape, HasEscape;
    if !HasEscape(text) {
      PlainKeepsLines(deunicode, text);
    } else {
      var (plain, escape, rest) := CutAtEscape(text);
      PlainKeepsLines(deunicode, plain);
      TransliterationKeepsLines(deunicode, rest);
      LinesOfThree(plain, escape, rest);
      LinesOfThree(Plain(deunicode, plain), escape, Transliterated(deunicode, rest));
    }
  }
}
