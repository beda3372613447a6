/** Builder markup: what a marked-up string means, and the single-pass compiler that finds it. */
module MarkupModel {
  import opened Wrappers

  datatype Attribute = Bold | Italic | Underline | Blink | Reverse
  datatype Color = Color(red: nat, green: nat, blue: nat)
  datatype Style = Style(fg: Option<Color>, bg: Option<Color>, attrs: set<Attribute>) {
    predicate IsUnstyled() {
      fg.None? && bg.None? && attrs == {}
    }
  }

  const UNSTYLED := Style(None, None, {})

  datatype FieldStyle = FieldStyle(default: Style, allowColors: bool, allowedAttrs: set<Attribute>)
  type Palette = map<string, Color>

  datatype Diagnostic =
    | UnknownColor(name: string)
    | DisallowedTag(tag: string)
    | UnterminatedTag(tag: string)
    | UnmatchedClose
    | Unclosed(count: nat)

  // The tokens of a marked-up string.

  datatype Token = Plain(c: char) | Doubled(c: char) | Tag(tag: string) | Broken(tag: string)

  /** How many characters come before the first closing brace. */
  function UptoClose(s: string): (n: nat)
    ensures n <= |s| && (n < |s| ==> s[n] == '}') && forall i | 0 <= i < n :: s[i] != '}'
  {
    if s == [] || s[0] == '}' then 0 else 1 + UptoClose(s[1..])
  }

  function FirstToken(s: string): (Token, string)
    requires s != []
  {
    if |s| >= 2 && s[0] == s[1] && (s[0] == '{' || s[0] == '}') then (Doubled(s[0]), s[2..])
    else if s[0] == '{' then
      var n := UptoClose(s[1..]);
      if n < |s| - 1 then (Tag(s[1..][..n]), s[1..][n + 1..]) else (Broken(s[1..]), [])
    else (Plain(s[0]), s[1..])
  }

  function Tokens(s: string): seq<Token>
    decreases |s|
  {
    if s == [] then [] else [FirstToken(s).0] + Tokens(FirstToken(s).1)
  }

  /** The text a token was read from. */
  function Source(t: Token): string {
    match t
    case Plain(c) => [c]
    case Doubled(c) => [c, c]
    case Tag(tag) => "{" + tag + "}"
    case Broken(tag) => "{" + tag
  }

  function SourceOf(tokens: seq<Token>): string {
    if tokens == [] then [] else Source(tokens[0]) + SourceOf(tokens[1..])
  }

  /** Reading tokens loses nothing of the input. */
  lemma {:induction false} TokensKeepInput(s: string)
    ensures SourceOf(Tokens(s)) == s
    decreases |s|
  {
    hide FirstToken, Source;
    if s != [] {
      var (t, rest) := FirstToken(s);
      FirstTokenKeepsInput(s);
      TokensKeepInput(rest);
      assert Tokens(s)[1..] == Tokens(rest);
    }
  }

  lemma FirstTokenKeepsInput(s: string)
    requires s != []
    ensures Source(FirstToken(s).0) + FirstToken(s).1 == s && |FirstToken(s).1| < |s|
  {
  }

  // The meaning of tokens: tags say nothing, doubled braces stand for one.

  function Shown(t: Token): string {
    match t
    case Plain(c) => [c]
    case Doubled(c) => [c]
    case Tag(_) => []
    case Broken(tag) => "{" + tag
  }

  function AttributeTag(tag: string): Option<Attribute> {
    if tag == "b" then Some(Bold) else if tag == "i" then Some(Italic) else if tag == "u" then Some(Underline) else None
  }

  function ResolveColor(field: FieldStyle, palette: Palette, tag: string, name: string): Result<Color, Diagnostic> {
    if !field.allowColors then Err(DisallowedTag(tag))
    else if name in palette then Ok(palette[name])
    else Err(UnknownColor(name))
  }

  function ResolveTag(field: FieldStyle, palette: Palette, tag: string): Result<Style, Diagnostic> {
    match AttributeTag(tag)
    case Some(attr) => if attr in field.allowedAttrs then Ok(Style(None, None, {attr})) else Err(DisallowedTag(tag))
    case None =>
      if "fg=" <= tag then
        match ResolveColor(field, palette, tag, tag[3..]) case Err(e) => Err(e) case Ok(color) => Ok(Style(Some(color), None, {}))
      else if "bg=" <= tag then
        match ResolveColor(field, palette, tag, tag[3..]) case Err(e) => Err(e) case Ok(color) => Ok(Style(None, Some(color), {}))
      else Err(DisallowedTag(tag))
  }

  /** The tags open after some tokens; one that is refused is open too, adding nothing. */
  function OpenTags(field: FieldStyle, palette: Palette, tokens: seq<Token>): seq<Style> {
    if tokens == [] then []
    else
      var n := |tokens| - 1;
      var earlier := OpenTags(field, palette, tokens[..n]);
      if !tokens[n].Tag? then earlier
      else if tokens[n].tag == "/" then if earlier == [] then [] else earlier[..|earlier| - 1]
      else earlier + [match ResolveTag(field, palette, tokens[n].tag) case Ok(style) => style case Err(_) => UNSTYLED]
  }

  function Layered(base: Style, layer: Style): Style {
    Style(if layer.fg.Some? then layer.fg else base.fg, if layer.bg.Some? then layer.bg else base.bg, base.attrs + layer.attrs)
  }

  /** The default with every open tag laid over it, outermost first. */
  function Overlay(base: Style, tags: seq<Style>): Style {
    if tags == [] then base else Layered(Overlay(base, tags[..|tags| - 1]), tags[|tags| - 1])
  }

  /** The innermost open tag that sets a colour sets it for the text. */
  lemma {:induction false} InnermostColorWins(base: Style, tags: seq<Style>, i: nat)
    requires i < |tags|
    ensures tags[i].fg.Some? && (forall j | i < j < |tags| :: tags[j].fg.None?) ==> Overlay(base, tags).fg == tags[i].fg
    ensures tags[i].bg.Some? && (forall j | i < j < |tags| :: tags[j].bg.None?) ==> Overlay(base, tags).bg == tags[i].bg
    decreases |tags|
  {
    var n := |tags| - 1;
    if i < n {
      InnermostColorWins(base, tags[..n], i);
    }
  }

  /** Without such a tag the default shows; attributes always unite. */
  lemma {:induction false} DefaultsShowAttributesUnite(base: Style, tags: seq<Style>)
    ensures (forall s | s in tags :: s.fg.None?) ==> Overlay(base, tags).fg == base.fg
    ensures (forall s | s in tags :: s.bg.None?) ==> Overlay(base, tags).bg == base.bg
    ensures forall a :: a in Overlay(base, tags).attrs <==> a in base.attrs || exists s :: s in tags && a in s.attrs
    decreases |tags|
  {
    if tags != [] {
      var n := |tags| - 1;
      DefaultsShowAttributesUnite(base, tags[..n]);
      assert tags == tags[..n] + [tags[n]] && tags[n] in tags;
    }
  }

  function Dressed(text: string, style: Style): seq<(char, Style)> {
    seq(|text|, i requires 0 <= i < |text| => (text[i], style))
  }

  /** Every visible character with its style: the field default under the tags open where it stands. */
  function Meaning(field: FieldStyle, palette: Palette, tokens: seq<Token>): seq<(char, Style)> {
    if tokens == [] then []
    else
      var n := |tokens| - 1;
      Meaning(field, palette, tokens[..n])
      + Dressed(Shown(tokens[n]), Overlay(field.default, OpenTags(field, palette, tokens[..n])))
  }

  function Complaint(field: FieldStyle, palette: Palette, open: seq<Style>, t: Token): seq<Diagnostic> {
    match t
    case Broken(tag) => [UnterminatedTag(tag)]
    case Tag(tag) =>
      if tag == "/" then if open == [] then [UnmatchedClose] else []
      else (match ResolveTag(field, palette, tag) case Ok(_) => [] case Err(e) => [e])
    case _ => []
  }

  function Complaints(field: FieldStyle, palette: Palette, tokens: seq<Token>): seq<Diagnostic> {
    if tokens == [] then []
    else
      var n := |tokens| - 1;
      Complaints(field, palette, tokens[..n]) + Complaint(field, palette, OpenTags(field, palette, tokens[..n]), tokens[n])
  }

  function Diagnostics(field: FieldStyle, palette: Palette, tokens: seq<Token>): seq<Diagnostic> {
    var open := |OpenTags(field, palette, tokens)|;
    Complaints(field, palette, tokens) + if open == 0 then [] else [Unclosed(open)]
  }

  lemma TokenAdds(field: FieldStyle, palette: Palette, done: seq<Token>, t: Token)
    ensures var open := OpenTags(field, palette, done);
            && OpenTags(field, palette, done + [t])
               == (if !t.Tag? then open
                   else if t.tag == "/" then if open == [] then [] else open[..|open| - 1]
                   else open + [match ResolveTag(field, palette, t.tag) case Ok(style) => style case Err(_) => UNSTYLED])
            && Meaning(field, palette, done + [t]) == Meaning(field, palette, done) + Dressed(Shown(t), Overlay(field.default, open))
            && Complaints(field, palette, done + [t]) == Complaints(field, palette, done) + Complaint(field, palette, open, t)
  {
    assert (done + [t])[..|done|] == done;
  }
}

/** What follows from the meaning, for every input. */
module MarkupMeaning {
  import opened MarkupModel

  function TextOf(chars: seq<(char, Style)>): string {
    seq(|chars|, i requires 0 <= i < |chars| => chars[i].0)
  }

  function ShownText(tokens: seq<Token>): string {
    if tokens == [] then [] else ShownText(tokens[..|tokens| - 1]) + Shown(tokens[|tokens| - 1])
  }

  /** The text is the tokens' with tags left out and doubled braces halved, whatever the styles. */
  lemma {:induction false} TextIsTheTokens(field: FieldStyle, palette: Palette, tokens: seq<Token>)
    ensures TextOf(Meaning(field, palette, tokens)) == ShownText(tokens)
    decreases |tokens|
  {
    hide OpenTags, Overlay, Shown;
    if tokens != [] {
      var n := |tokens| - 1;
      TextIsTheTokens(field, palette, tokens[..n]);
      var last := Dressed(Shown(tokens[n]), Overlay(field.default, OpenTags(field, palette, tokens[..n])));
      assert TextOf(last) == Shown(tokens[n]);
      assert TextOf(Meaning(field, palette, tokens[..n]) + last) == TextOf(Meaning(field, palette, tokens[..n])) + TextOf(last);
    }
  }

  /** Opening tags less closing ones. */
  function Depth(tokens: seq<Token>): int {
    if tokens == [] then 0
    else
      var last := tokens[|tokens| - 1];
      Depth(tokens[..|tokens| - 1]) + if !last.Tag? then 0 else if last.tag == "/" then -1 else 1
  }

  predicate Allowed(field: FieldStyle, palette: Palette, t: Token) {
    match t
    case Broken(_) => false
    case Tag(tag) => tag != "/" ==> ResolveTag(field, palette, tag).Ok?
    case _ => true
  }

  /** Every tag is terminated and allowed, none closes what is not open, and none stays open. */
  ghost predicate WellFormed(field: FieldStyle, palette: Palette, tokens: seq<Token>) {
    && (forall k | 0 <= k < |tokens| :: Allowed(field, palette, tokens[k]))
    && (forall k | 0 <= k <= |tokens| :: Depth(tokens[..k]) >= 0)
    && Depth(tokens) == 0
  }

  ghost predicate GoodSoFar(field: FieldStyle, palette: Palette, tokens: seq<Token>) {
    && (forall k | 0 <= k < |tokens| :: Allowed(field, palette, tokens[k]))
    && (forall k | 0 <= k <= |tokens| :: Depth(tokens[..k]) >= 0)
  }

  lemma {:induction false} NoComplaintsMeansGood(field: FieldStyle, palette: Palette, tokens: seq<Token>)
    ensures Complaints(field, palette, tokens) == [] <==> GoodSoFar(field, palette, tokens)
    ensures GoodSoFar(field, palette, tokens) ==> Depth(tokens) == |OpenTags(field, palette, tokens)|
    decreases |tokens|
  {
    if tokens != [] {
      var n := |tokens| - 1;
      NoComplaintsMeansGood(field, palette, tokens[..n]);
      GoodGrows(field, palette, tokens[..n], tokens[n]);
      assert tokens == tokens[..n] + [tokens[n]];
      hide ResolveTag, GoodSoFar;
    }
  }

  lemma GoodGrows(field: FieldStyle, palette: Palette, tokens: seq<Token>, t: Token)
    ensures GoodSoFar(field, palette, tokens + [t])
       <==> GoodSoFar(field, palette, tokens) && Allowed(field, palette, t) && Depth(tokens + [t]) >= 0
  {
    hide Allowed, Depth;
    var more := tokens + [t];
    assert forall k | 0 <= k <= |tokens| :: more[..k] == tokens[..k];
    assert more[..|more|] == more && more[|tokens|] == t;
    assert forall k | 0 <= k < |tokens| :: more[k] == tokens[k];
    if GoodSoFar(field, palette, more) {
      forall k | 0 <= k <= |tokens| ensures Depth(tokens[..k]) >= 0 { assert Depth(more[..k]) >= 0; }
      forall k | 0 <= k < |tokens| ensures Allowed(field, palette, tokens[k]) { assert Allowed(field, palette, more[k]); }
      assert Allowed(field, palette, more[|tokens|]);
      assert Depth(more[..|more|]) >= 0;
    }
  }

  /** The compiler complains of nothing exactly when the markup is well formed. */
  lemma SilentMeansWellFormed(field: FieldStyle, palette: Palette, tokens: seq<Token>)
    ensures Diagnostics(field, palette, tokens) == [] <==> WellFormed(field, palette, tokens)
  {
    NoComplaintsMeansGood(field, palette, tokens);
  }

  function Escape(s: string): string {
    if s == [] then [] else Escaped(s[0]) + Escape(s[1..])
  }

  function Escaped(c: char): string {
    if c == '{' || c == '}' then [c, c] else [c]
  }

  /** The token of a character that is meant as itself. */
  function Literally(c: char): Token {
    if c == '{' || c == '}' then Doubled(c) else Plain(c)
  }

  function Literal(s: string): seq<Token> {
    seq(|s|, i requires 0 <= i < |s| => Literally(s[i]))
  }
}

/** The compiler: text gathers in `buf` until a tag changes the style, then becomes one span. */
module MarkupCompiler {
  import opened MarkupModel
  import opened MarkupTrees

  datatype Span = PlainSpan(text: string) | StyledSpan(text: string, style: Style)

  /** The characters of spans with their styles; a plain span is unstyled. */
  function Flat(spans: seq<Span>): seq<(char, Style)> {
    if spans == [] then []
    else
      var last := spans[|spans| - 1];
      Flat(spans[..|spans| - 1]) + Dressed(last.text, if last.PlainSpan? then UNSTYLED else last.style)
  }

  /** No empty span, and no styled span that carries no style. */
  ghost predicate Tidy(spans: seq<Span>) {
    forall span | span in spans :: span.text != [] && (span.StyledSpan? ==> !span.style.IsUnstyled())
  }

  class Compiler {
    const field: FieldStyle
    const palette: Palette
    var out: seq<Span>
    var diagnostics: seq<Diagnostic>
    var stack: seq<Style>
    var buf: string

    constructor (field: FieldStyle, palette: Palette)
      ensures this.field == field && this.palette == palette
      ensures out == [] && diagnostics == [] && stack == [] && buf == []
    {
      this.field, this.palette := field, palette;
      out, diagnostics, stack, buf := [], [], [], [];
    }

    /** Everything shown so far is in `out` and `buf`. */
    ghost predicate Shows(done: seq<Token>)
      reads this`out, this`stack, this`buf
    {
      && Tidy(out)
      && stack == OpenTags(field, palette, done)
      && Flat(out) + Dressed(buf, Overlay(field.default, stack)) == Meaning(field, palette, done)
    }

    ghost predicate Holds(done: seq<Token>)
      reads this
    {
      Shows(done) && diagnostics == Complaints(field, palette, done)
    }

    method Run(input: string)
      requires Holds([])
      modifies this
      ensures Tidy(out) && Flat(out) == Meaning(field, palette, Tokens(input))
      ensures diagnostics == Diagnostics(field, palette, Tokens(input))
      ensures forall page | WritablePage(page, false) && PageMarkup(page) == input ::
                Flat(out) == PageLook(field, palette, page, field.default) && diagnostics == PageDiagnostics(field, palette, page)
    {
      hide *;
      var i := 0;
      ghost var done: seq<Token> := [];
      while i < |input|
        invariant i <= |input|
        invariant Tokens(input) == done + Tokens(input[i..])
        invariant Holds(done)
      {
        var c := input[i];
        ghost var token, rest := FirstToken(input[i..]).0, FirstToken(input[i..]).1;
        TokenAt(input, i);
        Handled(done, token);
        if i + 1 < |input| && c == input[i + 1] && (c == '{' || c == '}') {
          Gather([c], done, token);
          i := i + 2;
        } else if c == '{' {
          var j := i + 1;
          while j < |input| && input[j] != '}'
            invariant i < j <= |input|
            invariant forall k | i < k < j :: input[k] != '}'
          {
            j := j + 1;
          }
          TagAt(input, i, j);
          var tag := input[i + 1..j];
          if j < |input| {
            ApplyTag(tag, done);
            i := j + 1;
          } else {
            diagnostics := diagnostics + [UnterminatedTag(tag)];
            Gather("{" + tag, done, token);
            i := j;
          }
        } else {
          Gather([c], done, token);
          i := i + 1;
        }
        assert rest == input[i..];
        done := done + [token];
      }
      assert done == Tokens(input) by { NoTokens(input[i..]); }
      AllShown(done);
      Flush();
      if stack != [] {
        diagnostics := diagnostics + [Unclosed(|stack|)];
      }
      forall page | WritablePage(page, false) && PageMarkup(page) == input
        ensures Flat(out) == PageLook(field, palette, page, field.default) && diagnostics == PageDiagnostics(field, palette, page)
      {
        PageLooksSo(field, palette, page);
      }
    }

    /** What the state says before a token, spelled out for the branches that follow. */
    lemma Handled(done: seq<Token>, t: Token)
      requires Holds(done)
      ensures Shows(done)
      ensures var next := Complaints(field, palette, done) + Complaint(field, palette, OpenTags(field, palette, done), t);
              && (t.Plain? || t.Doubled? ==> diagnostics == next)
              && (t.Broken? ==> diagnostics + [UnterminatedTag(t.tag)] == next)
    {
    }

    lemma AllShown(done: seq<Token>)
      requires Holds(done)
      ensures Tidy(out)
      ensures Flat(out) + Dressed(buf, Overlay(field.default, stack)) == Meaning(field, palette, done)
      ensures Diagnostics(field, palette, done) == if stack == [] then diagnostics else diagnostics + [Unclosed(|stack|)]
    {
    }

    /** Text joins the buffer: the style has not changed since the last flush. */
    method Gather(text: string, ghost done: seq<Token>, ghost token: Token)
      requires !token.Tag? && Shown(token) == text && Shows(done)
      requires diagnostics == Complaints(field, palette, done) + Complaint(field, palette, OpenTags(field, palette, done), token)
      modifies this`buf
      ensures Holds(done + [token])
    {
      hide OpenTags, Meaning, Complaints, Complaint, Dressed, Overlay, ResolveTag, Shown, Flat;
      TokenAdds(field, palette, done, token);
      DressedConcat(buf, text, Overlay(field.default, stack));
      buf := buf + text;
    }

    method ApplyTag(tag: string, ghost done: seq<Token>)
      requires Holds(done)
      modifies this
      ensures Holds(done + [Tag(tag)])
    {
      hide OpenTags, Meaning, Complaints, Overlay, ResolveTag;
      TokenAdds(field, palette, done, Tag(tag));
      NothingDressed();
      Flush();
      if tag == "/" {
        if stack == [] {
          diagnostics := diagnostics + [UnmatchedClose];
        } else {
          stack := stack[..|stack| - 1];
        }
        return;
      }
      var resolved := ResolveTag(field, palette, tag);
      match resolved
      case Ok(style) =>
        stack := stack + [style];
      case Err(diagnostic) =>
        diagnostics := diagnostics + [diagnostic];
        stack := stack + [UNSTYLED];
    }

    /** The buffer becomes one span in the style of the tags open now. */
    method Flush()
      requires Tidy(out)
      modifies this`out, this`buf
      ensures Tidy(out) && buf == []
      ensures Flat(out) == old(Flat(out) + Dressed(buf, Overlay(field.default, stack)))
    {
      if buf == [] {
        assert Flat(out) + [] == Flat(out);
        return;
      }
      var style := Overlay(field.default, stack);
      var span := if style.IsUnstyled() then PlainSpan(buf) else StyledSpan(buf, style);
      assert (out + [span])[..|out|] == out;
      assert style.IsUnstyled() ==> style == UNSTYLED;
      out := out + [span];
      buf := [];
    }
  }

  lemma DressedConcat(a: string, b: string, style: Style)
    ensures Dressed(a + b, style) == Dressed(a, style) + Dressed(b, style)
  {
  }

  lemma NothingDressed()
    ensures forall s :: Dressed([], s) == []
  {
  }

  lemma TokenAt(input: string, i: nat)
    requires i < |input|
    ensures var c, (t, rest) := input[i], FirstToken(input[i..]);
            && Tokens(input[i..]) == [t] + Tokens(rest)
            && if i + 1 < |input| && c == input[i + 1] && (c == '{' || c == '}')
               then t == Doubled(c) && Shown(t) == [c] && rest == input[i + 2..]
               else c != '{' ==> t == Plain(c) && Shown(t) == [c] && rest == input[i + 1..]
  {
  }

  lemma TagAt(input: string, i: nat, j: nat)
    requires i < j <= |input| && input[i] == '{' && (i + 1 < |input| ==> input[i + 1] != '{')
    requires (j < |input| ==> input[j] == '}') && forall k | i < k < j :: input[k] != '}'
    ensures var (t, rest) := FirstToken(input[i..]);
            if j < |input| then t == Tag(input[i + 1..j]) && rest == input[j + 1..]
            else t == Broken(input[i + 1..j]) && Shown(t) == "{" + input[i + 1..j] && rest == input[j..]
  {
    var after := input[i..][1..];
    var n := UptoClose(after);
    assert forall k | 0 <= k < |after| :: after[k] == input[i + 1 + k];
    assert n < |after| ==> input[i + 1 + n] == '}';
    assert j < |input| ==> after[j - i - 1] == '}';
    assert after[..n] == input[i + 1..j];
    if j < |input| { assert after[n + 1..] == input[j + 1..]; }
  }
}
