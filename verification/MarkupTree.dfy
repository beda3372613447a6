/** Markup as nested tags: what a page is meant to look like, told from its tree alone. */
module MarkupTrees {
  import opened Wrappers
  import opened MarkupModel
  import opened MarkupMeaning

  /** What a builder can write between braces. */
  datatype Kind = BoldTag | ItalicTag | UnderlineTag | Foreground(name: string) | Background(name: string) | Strange(tag: string)

  /** Text, or a tag around a document, and what follows. */
  datatype Doc = End | Text(text: string, rest: Doc) | Tagged(kind: Kind, inner: Doc, rest: Doc)

  function Spelled(kind: Kind): string {
    match kind
    case BoldTag => "b"
    case ItalicTag => "i"
    case UnderlineTag => "u"
    case Foreground(name) => "fg=" + name
    case Background(name) => "bg=" + name
    case Strange(tag) => tag
  }

  /** A tag that is read as one and as none of the others. */
  predicate Writable(kind: Kind) {
    match kind
    case Foreground(name) => '}' !in name
    case Background(name) => '}' !in name
    case Strange(tag) =>
      && '}' !in tag && (tag != [] ==> tag[0] != '{') && tag !in {"/", "b", "i", "u"}
      && !("fg=" <= tag) && !("bg=" <= tag)
    case _ => true
  }

  predicate WritableDoc(doc: Doc) {
    match doc
    case End => true
    case Text(_, rest) => WritableDoc(rest)
    case Tagged(kind, inner, rest) => Writable(kind) && WritableDoc(inner) && WritableDoc(rest)
  }

  /** The document as its builder writes it, literal braces doubled. */
  function Markup(doc: Doc): string {
    match doc
    case End => []
    case Text(text, rest) => Escape(text) + Markup(rest)
    case Tagged(kind, inner, rest) => "{" + Spelled(kind) + "}" + Markup(inner) + "{/}" + Markup(rest)
  }

  /** The style inside a tag: bold, italic or underlined too where allowed, another colour where allowed and known, else as outside. */
  function Inside(field: FieldStyle, palette: Palette, kind: Kind, outside: Style): Style {
    match kind
    case BoldTag => if Bold in field.allowedAttrs then outside.(attrs := outside.attrs + {Bold}) else outside
    case ItalicTag => if Italic in field.allowedAttrs then outside.(attrs := outside.attrs + {Italic}) else outside
    case UnderlineTag => if Underline in field.allowedAttrs then outside.(attrs := outside.attrs + {Underline}) else outside
    case Foreground(name) => if field.allowColors && name in palette then outside.(fg := Some(palette[name])) else outside
    case Background(name) => if field.allowColors && name in palette then outside.(bg := Some(palette[name])) else outside
    case Strange(_) => outside
  }

  /** What is wrong with a tag: its kind is not allowed in this field, or its colour is not known. */
  function Objection(field: FieldStyle, palette: Palette, kind: Kind): seq<Diagnostic> {
    match kind
    case BoldTag => if Bold in field.allowedAttrs then [] else [DisallowedTag("b")]
    case ItalicTag => if Italic in field.allowedAttrs then [] else [DisallowedTag("i")]
    case UnderlineTag => if Underline in field.allowedAttrs then [] else [DisallowedTag("u")]
    case Foreground(name) =>
      if !field.allowColors then [DisallowedTag("fg=" + name)] else if name in palette then [] else [UnknownColor(name)]
    case Background(name) =>
      if !field.allowColors then [DisallowedTag("bg=" + name)] else if name in palette then [] else [UnknownColor(name)]
    case Strange(tag) => [DisallowedTag(tag)]
  }

  /** Every character of the document in the style of the tags around it. */
  function Look(field: FieldStyle, palette: Palette, doc: Doc, style: Style): seq<(char, Style)> {
    match doc
    case End => []
    case Text(text, rest) => seq(|text|, i requires 0 <= i < |text| => (text[i], style)) + Look(field, palette, rest, style)
    case Tagged(kind, inner, rest) =>
      Look(field, palette, inner, Inside(field, palette, kind, style)) + Look(field, palette, rest, style)
  }

  function Objections(field: FieldStyle, palette: Palette, doc: Doc): seq<Diagnostic> {
    match doc
    case End => []
    case Text(_, rest) => Objections(field, palette, rest)
    case Tagged(kind, inner, rest) =>
      Objection(field, palette, kind) + Objections(field, palette, inner) + Objections(field, palette, rest)
  }

  // The document's own tokens.

  function DocTokens(doc: Doc): seq<Token> {
    match doc
    case End => []
    case Text(text, rest) => Literal(text) + DocTokens(rest)
    case Tagged(kind, inner, rest) => [Tag(Spelled(kind))] + DocTokens(inner) + [Tag("/")] + DocTokens(rest)
  }

  lemma {:induction false} EscapedThenRest(s: string, rest: string)
    ensures Tokens(Escape(s) + rest) == Literal(s) + Tokens(rest)
  {
    hide Tokens, FirstToken;
    if s == [] {
      assert Escape(s) + rest == rest && Literal(s) + Tokens(rest) == Tokens(rest);
    } else {
      var more := Escape(s[1..]) + rest;
      EscapedThenRest(s[1..], rest);
      CharThenRest(s[0], more);
      assert Escape(s) + rest == Escaped(s[0]) + more;
      assert Literal(s) == [Literally(s[0])] + Literal(s[1..]);
      assert Literal(s) + Tokens(rest) == [Literally(s[0])] + (Literal(s[1..]) + Tokens(rest));
    }
  }

  lemma CharThenRest(c: char, rest: string)
    ensures Tokens(Escaped(c) + rest) == [Literally(c)] + Tokens(rest)
  {
    var whole := Escaped(c) + rest;
    assert FirstToken(whole).0 == Literally(c);
    assert FirstToken(whole).1 == rest;
  }

  lemma TagThenRest(tag: string, rest: string)
    requires '}' !in tag && (tag != [] ==> tag[0] != '{')
    ensures Tokens("{" + tag + "}" + rest) == [Tag(tag)] + Tokens(rest)
  {
    var whole := "{" + tag + "}" + rest;
    var after := whole[1..];
    assert after == tag + "}" + rest;
    UptoFirst(tag, rest);
    assert after[..|tag|] == tag && after[|tag| + 1..] == rest;
    assert whole[0] == '{' && |whole| >= 2 && whole[1] != '{';
    assert FirstToken(whole) == (Tag(tag), rest);
  }

  lemma {:induction false} UptoFirst(tag: string, rest: string)
    requires '}' !in tag
    ensures UptoClose(tag + "}" + rest) == |tag|
  {
    var s := tag + "}" + rest;
    if tag != [] {
      assert s[0] == tag[0] && s[1..] == tag[1..] + "}" + rest;
      UptoFirst(tag[1..], rest);
    }
  }

  lemma SpelledIsTag(kind: Kind)
    requires Writable(kind)
    ensures '}' !in Spelled(kind) && (Spelled(kind) != [] ==> Spelled(kind)[0] != '{') && Spelled(kind) != "/"
  {
    if kind.Foreground? || kind.Background? {
      assert |Spelled(kind)| >= 3;
      assert forall c | c in Spelled(kind) :: c in kind.name || c in "fg=" || c in "bg=";
    }
  }

  lemma {:induction false} MarkupTokens(doc: Doc, rest: string)
    requires WritableDoc(doc)
    ensures Tokens(Markup(doc) + rest) == DocTokens(doc) + Tokens(rest)
    decreases doc
  {
    hide Tokens, Escape, Literal, Spelled, Writable;
    match doc
    case End => assert Markup(doc) + rest == rest && [] + Tokens(rest) == Tokens(rest);
    case Text(text, more) =>
      EscapedThenRest(text, Markup(more) + rest);
      MarkupTokens(more, rest);
      assert Markup(doc) + rest == Escape(text) + (Markup(more) + rest);
      assert DocTokens(doc) + Tokens(rest) == Literal(text) + (DocTokens(more) + Tokens(rest));
    case Tagged(kind, inner, more) =>
      var tail := "{/}" + (Markup(more) + rest);
      SpelledIsTag(kind);
      TagThenRest(Spelled(kind), Markup(inner) + tail);
      MarkupTokens(inner, tail);
      TagThenRest("/", Markup(more) + rest);
      assert "{" + "/" + "}" == "{/}";
      MarkupTokens(more, rest);
      Joined("{" + Spelled(kind) + "}", Markup(inner), "{/}", Markup(more), rest);
      Joined([Tag(Spelled(kind))], DocTokens(inner), [Tag("/")], DocTokens(more), Tokens(rest));
  }

  lemma Joined<T>(a: seq<T>, b: seq<T>, c: seq<T>, d: seq<T>, e: seq<T>)
    ensures a + b + c + d + e == a + (b + (c + (d + e)))
  {
    Regrouped(a + b + c, d, e);
    Regrouped(a + b, c, d + e);
    Regrouped(a, b, c + (d + e));
  }

  lemma Grouped<T>(a: seq<T>, b: seq<T>, c: seq<T>, d: seq<T>)
    ensures a + b + c + d == a + (b + c + d) == a + (b + (c + d))
  {
    Regrouped(a + b, c, d);
    Regrouped(a, b, c + d);
    Regrouped(b, c, d);
  }

  lemma Regrouped<T>(a: seq<T>, b: seq<T>, c: seq<T>)
    ensures a + b + c == a + (b + c)
  {
  }

  // Reading them gives the look.

  /** Reading more tokens: what they show, complain of and leave open, after what was read before. */
  ghost predicate Adds(field: FieldStyle, palette: Palette, done: seq<Token>, more: seq<Token>, shown: seq<(char, Style)>, said: seq<Diagnostic>) {
    && Meaning(field, palette, done + more) == Meaning(field, palette, done) + shown
    && Complaints(field, palette, done + more) == Complaints(field, palette, done) + said
    && OpenTags(field, palette, done + more) == OpenTags(field, palette, done)
  }

  lemma AddsThen(field: FieldStyle, palette: Palette, done: seq<Token>, first: seq<Token>, shown: seq<(char, Style)>, said: seq<Diagnostic>,
                 later: seq<Token>, shownThen: seq<(char, Style)>, saidThen: seq<Diagnostic>)
    requires Adds(field, palette, done, first, shown, said) && Adds(field, palette, done + first, later, shownThen, saidThen)
    ensures Adds(field, palette, done, first + later, shown + shownThen, said + saidThen)
  {
    hide Meaning, Complaints, OpenTags;
    assert done + (first + later) == done + first + later;
    assert Meaning(field, palette, done) + shown + shownThen == Meaning(field, palette, done) + (shown + shownThen);
    assert Complaints(field, palette, done) + said + saidThen == Complaints(field, palette, done) + (said + saidThen);
  }

  lemma NothingAdds(field: FieldStyle, palette: Palette, done: seq<Token>)
    ensures Adds(field, palette, done, [], [], [])
  {
    hide Meaning, Complaints, OpenTags;
    assert done + [] == done;
    assert Meaning(field, palette, done) + [] == Meaning(field, palette, done);
    assert Complaints(field, palette, done) + [] == Complaints(field, palette, done);
  }

  lemma CharAdds(field: FieldStyle, palette: Palette, done: seq<Token>, c: char)
    ensures Adds(field, palette, done, [Literally(c)], [(c, Overlay(field.default, OpenTags(field, palette, done)))], [])
  {
    hide Meaning, Complaints, OpenTags, Overlay;
    TokenAdds(field, palette, done, Literally(c));
    assert Dressed([c], Overlay(field.default, OpenTags(field, palette, done))) == [(c, Overlay(field.default, OpenTags(field, palette, done)))];
  }

  lemma {:induction false} LiteralAdds(field: FieldStyle, palette: Palette, done: seq<Token>, s: string)
    ensures Adds(field, palette, done, Literal(s), Dressed(s, Overlay(field.default, OpenTags(field, palette, done))), [])
    decreases |s|
  {
    hide Meaning, Complaints, OpenTags, Overlay, Adds;
    var style := Overlay(field.default, OpenTags(field, palette, done));
    if s == [] {
      NothingAdds(field, palette, done);
      assert Literal(s) == [] && Dressed(s, style) == [];
    } else {
      var first := [Literally(s[0])];
      CharAdds(field, palette, done, s[0]);
      assert OpenTags(field, palette, done + first) == OpenTags(field, palette, done) by { KeepsOpen(field, palette, done, first, [(s[0], style)], []); }
      LiteralAdds(field, palette, done + first, s[1..]);
      AddsThen(field, palette, done, first, [(s[0], style)], [], Literal(s[1..]), Dressed(s[1..], style), []);
      assert Literal(s) == first + Literal(s[1..]);
      assert Dressed(s, style) == [(s[0], style)] + Dressed(s[1..], style);
      var none: seq<Diagnostic> := [];
      assert none + none == none;
    }
  }

  lemma KeepsOpen(field: FieldStyle, palette: Palette, done: seq<Token>, more: seq<Token>, shown: seq<(char, Style)>, said: seq<Diagnostic>)
    requires Adds(field, palette, done, more, shown, said)
    ensures OpenTags(field, palette, done + more) == OpenTags(field, palette, done)
  {
  }

  /** A tag of a kind does what is said of that kind. */
  lemma KindResolves(field: FieldStyle, palette: Palette, kind: Kind, outside: Style)
    requires Writable(kind)
    ensures match ResolveTag(field, palette, Spelled(kind))
            case Ok(style) => Layered(outside, style) == Inside(field, palette, kind, outside) && Objection(field, palette, kind) == []
            case Err(e) => Inside(field, palette, kind, outside) == outside && Objection(field, palette, kind) == [e]
    ensures Layered(outside, UNSTYLED) == outside
  {
    var tag := Spelled(kind);
    if kind.Foreground? || kind.Background? {
      assert tag[3..] == kind.name && tag[0] == (if kind.Foreground? then 'f' else 'b') && |tag| >= 3;
      assert tag[..3] == if kind.Foreground? then "fg=" else "bg=";
    }
  }

  lemma OneTagAdds(field: FieldStyle, palette: Palette, done: seq<Token>, kind: Kind)
    requires Writable(kind)
    ensures var more, base := done + [Tag(Spelled(kind))], field.default;
            && Meaning(field, palette, more) == Meaning(field, palette, done)
            && Complaints(field, palette, more) == Complaints(field, palette, done) + Objection(field, palette, kind)
            && |OpenTags(field, palette, more)| == |OpenTags(field, palette, done)| + 1
            && OpenTags(field, palette, more)[..|OpenTags(field, palette, done)|] == OpenTags(field, palette, done)
            && Overlay(base, OpenTags(field, palette, more)) == Inside(field, palette, kind, Overlay(base, OpenTags(field, palette, done)))
  {
    hide ResolveTag, Inside, Objection, Layered, Meaning, Complaints, OpenTags, Spelled;
    TokenAdds(field, palette, done, Tag(Spelled(kind)));
    SpelledIsTag(kind);
    KindResolves(field, palette, kind, Overlay(field.default, OpenTags(field, palette, done)));
    assert Meaning(field, palette, done) + [] == Meaning(field, palette, done);
  }

  lemma CloseAdds(field: FieldStyle, palette: Palette, done: seq<Token>)
    requires OpenTags(field, palette, done) != []
    ensures var more, open := done + [Tag("/")], OpenTags(field, palette, done);
            && Meaning(field, palette, more) == Meaning(field, palette, done)
            && Complaints(field, palette, more) == Complaints(field, palette, done)
            && OpenTags(field, palette, more) == open[..|open| - 1]
  {
    hide Meaning, Complaints, OpenTags, Overlay, ResolveTag;
    TokenAdds(field, palette, done, Tag("/"));
    assert Meaning(field, palette, done) + [] == Meaning(field, palette, done);
    assert Complaints(field, palette, done) + [] == Complaints(field, palette, done);
  }

  lemma {:induction false} DocAdds(field: FieldStyle, palette: Palette, done: seq<Token>, doc: Doc)
    requires WritableDoc(doc)
    ensures Adds(field, palette, done, DocTokens(doc), Look(field, palette, doc, Overlay(field.default, OpenTags(field, palette, done))),
                 Objections(field, palette, doc))
    decreases doc
  {
    hide Meaning, Complaints, OpenTags, Overlay, Literal, Spelled, Inside, Objection, Writable;
    var style := Overlay(field.default, OpenTags(field, palette, done));
    var shown, said := Meaning(field, palette, done), Complaints(field, palette, done);
    match doc
    case End =>
      assert done + [] == done && shown + [] == shown && said + [] == said;
    case Text(text, rest) =>
      LiteralAdds(field, palette, done, text);
      DocAdds(field, palette, done + Literal(text), rest);
      assert done + DocTokens(doc) == done + Literal(text) + DocTokens(rest);
      assert shown + Look(field, palette, doc, style) == shown + Dressed(text, style) + Look(field, palette, rest, style);
      assert said + [] + Objections(field, palette, rest) == said + Objections(field, palette, doc);
    case Tagged(kind, inner, rest) =>
      OneTagAdds(field, palette, done, kind);
      var within, inside := done + [Tag(Spelled(kind))], Inside(field, palette, kind, style);
      DocAdds(field, palette, within, inner);
      CloseAdds(field, palette, within + DocTokens(inner));
      DocAdds(field, palette, within + DocTokens(inner) + [Tag("/")], rest);
      AroundAdds(field, palette, done, kind, DocTokens(inner), Look(field, palette, inner, inside), Objections(field, palette, inner),
                 DocTokens(rest), Look(field, palette, rest, style), Objections(field, palette, rest));
  }

  /** A tag, what it is around, its close and what follows, put together. */
  lemma AroundAdds(field: FieldStyle, palette: Palette, done: seq<Token>, kind: Kind, inner: seq<Token>, shown: seq<(char, Style)>,
                   said: seq<Diagnostic>, rest: seq<Token>, shownThen: seq<(char, Style)>, saidThen: seq<Diagnostic>)
    requires Writable(kind)
    requires Adds(field, palette, done + [Tag(Spelled(kind))], inner, shown, said)
    requires Adds(field, palette, done + [Tag(Spelled(kind))] + inner + [Tag("/")], rest, shownThen, saidThen)
    ensures Adds(field, palette, done, [Tag(Spelled(kind))] + inner + [Tag("/")] + rest, shown + shownThen,
                 Objection(field, palette, kind) + said + saidThen)
  {
    hide Meaning, Complaints, OpenTags, Overlay, Spelled, Inside, Objection, Writable;
    OneTagAdds(field, palette, done, kind);
    CloseAdds(field, palette, done + [Tag(Spelled(kind))] + inner);
    ghost var open := [Tag(Spelled(kind))];
    Joined(done, open, inner, [Tag("/")], rest);
    Regrouped(Meaning(field, palette, done), shown, shownThen);
    Grouped(Complaints(field, palette, done), Objection(field, palette, kind), said, saidThen);
    Grouped(open, inner, [Tag("/")], rest);
    assert done + (open + inner + [Tag("/")] + rest) == done + open + inner + [Tag("/")] + rest;
  }

  /** However tags nest, a document shows each character in the style of the tags around it, and each bad tag is named once, in order. */
  lemma DocumentLooksSo(field: FieldStyle, palette: Palette, doc: Doc)
    requires WritableDoc(doc)
    ensures Meaning(field, palette, Tokens(Markup(doc))) == Look(field, palette, doc, field.default)
    ensures Diagnostics(field, palette, Tokens(Markup(doc))) == Objections(field, palette, doc)
  {
    hide Look, Objections, DocTokens;
    MarkupTokens(doc, []);
    assert Markup(doc) + [] == Markup(doc) && DocTokens(doc) + Tokens([]) == DocTokens(doc);
    DocAdds(field, palette, [], doc);
    assert [] + DocTokens(doc) == DocTokens(doc);
    assert [] + Look(field, palette, doc, field.default) == Look(field, palette, doc, field.default);
    assert [] + Objections(field, palette, doc) == Objections(field, palette, doc) == Objections(field, palette, doc) + [];
  }

  /** Any text, braces doubled, compiles to itself in the field's own style, with nothing to complain of. */
  lemma EscapeRoundTrip(field: FieldStyle, palette: Palette, s: string)
    ensures Meaning(field, palette, Tokens(Escape(s))) == Dressed(s, field.default)
    ensures Diagnostics(field, palette, Tokens(Escape(s))) == []
  {
    DocumentLooksSo(field, palette, Text(s, End));
    assert Escape(s) + [] == Escape(s) && Dressed(s, field.default) + [] == Dressed(s, field.default);
  }

  // Pages: documents with closes too many, tags left open, or a last tag cut short.

  datatype Page = Whole(doc: Doc) | Cut(doc: Doc, tag: string) | Stray(doc: Doc, next: Page) | LeftOpen(doc: Doc, kind: Kind, next: Page)

  /** Inside a tag left open a close would not be stray: it would close that tag. */
  predicate WritablePage(page: Page, inside: bool) {
    && WritableDoc(page.doc)
    && match page
       case Whole(_) => true
       case Cut(_, tag) => '}' !in tag && (tag != [] ==> tag[0] != '{')
       case Stray(_, next) => !inside && WritablePage(next, inside)
       case LeftOpen(_, kind, next) => Writable(kind) && WritablePage(next, true)
  }

  function PageMarkup(page: Page): string {
    Markup(page.doc)
    + match page
      case Whole(_) => []
      case Cut(_, tag) => "{" + tag
      case Stray(_, next) => "{/}" + PageMarkup(next)
      case LeftOpen(_, kind, next) => "{" + Spelled(kind) + "}" + PageMarkup(next)
  }

  /** A stray close shows nothing, a tag cut short shows itself, a tag left open reaches to the end. */
  function PageLook(field: FieldStyle, palette: Palette, page: Page, style: Style): seq<(char, Style)> {
    Look(field, palette, page.doc, style)
    + match page
      case Whole(_) => []
      case Cut(_, tag) => Dressed("{" + tag, style)
      case Stray(_, next) => PageLook(field, palette, next, style)
      case LeftOpen(_, kind, next) => PageLook(field, palette, next, Inside(field, palette, kind, style))
  }

  function PageObjections(field: FieldStyle, palette: Palette, page: Page): seq<Diagnostic> {
    Objections(field, palette, page.doc)
    + match page
      case Whole(_) => []
      case Cut(_, tag) => [UnterminatedTag(tag)]
      case Stray(_, next) => [UnmatchedClose] + PageObjections(field, palette, next)
      case LeftOpen(_, kind, next) => Objection(field, palette, kind) + PageObjections(field, palette, next)
  }

  function LeftOpenCount(page: Page): nat {
    match page
    case Whole(_) => 0
    case Cut(_, _) => 0
    case Stray(_, next) => LeftOpenCount(next)
    case LeftOpen(_, _, next) => 1 + LeftOpenCount(next)
  }

  function PageDiagnostics(field: FieldStyle, palette: Palette, page: Page): seq<Diagnostic> {
    PageObjections(field, palette, page) + if LeftOpenCount(page) == 0 then [] else [Unclosed(LeftOpenCount(page))]
  }

  function PageTokens(page: Page): seq<Token> {
    DocTokens(page.doc)
    + match page
      case Whole(_) => []
      case Cut(_, tag) => [Broken(tag)]
      case Stray(_, next) => [Tag("/")] + PageTokens(next)
      case LeftOpen(_, kind, next) => [Tag(Spelled(kind))] + PageTokens(next)
  }

  lemma {:induction false} PageMarkupTokens(page: Page, inside: bool)
    requires WritablePage(page, inside)
    ensures Tokens(PageMarkup(page)) == PageTokens(page)
  {
    hide Markup, DocTokens, Tokens, Spelled, Writable, WritableDoc;
    match page
    case Whole(doc) =>
      NoTokens([]);
      MarkupTokens(doc, []);
    case Cut(doc, tag) =>
      CutIsBroken(tag);
      MarkupTokens(doc, "{" + tag);
    case Stray(doc, next) =>
      PageMarkupTokens(next, inside);
      TagThenRest("/", PageMarkup(next));
      assert "{" + "/" + "}" == "{/}";
      MarkupTokens(doc, "{/}" + PageMarkup(next));
    case LeftOpen(doc, kind, next) =>
      PageMarkupTokens(next, true);
      SpelledIsTag(kind);
      TagThenRest(Spelled(kind), PageMarkup(next));
      MarkupTokens(doc, "{" + Spelled(kind) + "}" + PageMarkup(next));
  }

  lemma NoTokens(s: string)
    requires s == []
    ensures Tokens(s) == []
  {
  }

  lemma CutIsBroken(tag: string)
    requires '}' !in tag && (tag != [] ==> tag[0] != '{')
    ensures Tokens("{" + tag) == [Broken(tag)]
  {
    var whole := "{" + tag;
    assert whole[1..] == tag;
    assert forall i | 0 <= i < |tag| :: tag[i] != '}';
    assert FirstToken(whole) == (Broken(tag), []);
  }

  /** Reading a page: also what it leaves open. */
  ghost predicate PageReads(field: FieldStyle, palette: Palette, done: seq<Token>, more: seq<Token>, shown: seq<(char, Style)>,
                            said: seq<Diagnostic>, left: nat) {
    && Meaning(field, palette, done + more) == Meaning(field, palette, done) + shown
    && Complaints(field, palette, done + more) == Complaints(field, palette, done) + said
    && |OpenTags(field, palette, done + more)| == |OpenTags(field, palette, done)| + left
  }

  lemma ThenReads(field: FieldStyle, palette: Palette, done: seq<Token>, first: seq<Token>, shown: seq<(char, Style)>, said: seq<Diagnostic>,
                  left: nat, later: seq<Token>, shownThen: seq<(char, Style)>, saidThen: seq<Diagnostic>, leftThen: nat)
    requires PageReads(field, palette, done, first, shown, said, left)
    requires PageReads(field, palette, done + first, later, shownThen, saidThen, leftThen)
    ensures PageReads(field, palette, done, first + later, shown + shownThen, said + saidThen, left + leftThen)
  {
    hide Meaning, Complaints, OpenTags;
    Regrouped(done, first, later);
    Regrouped(Meaning(field, palette, done), shown, shownThen);
    Regrouped(Complaints(field, palette, done), said, saidThen);
  }

  /** One token between the documents of a page. */
  lemma BreakReads(field: FieldStyle, palette: Palette, done: seq<Token>, t: Token)
    ensures var style := Overlay(field.default, OpenTags(field, palette, done));
            && (t.Broken? ==> PageReads(field, palette, done, [t], Dressed("{" + t.tag, style), [UnterminatedTag(t.tag)], 0))
            && (t == Tag("/") && OpenTags(field, palette, done) == [] ==>
                  && PageReads(field, palette, done, [t], [], [UnmatchedClose], 0)
                  && OpenTags(field, palette, done + [t]) == [])
  {
    hide Meaning, Complaints, OpenTags, Overlay, ResolveTag;
    TokenAdds(field, palette, done, t);
    assert Dressed([], Overlay(field.default, OpenTags(field, palette, done))) == [];
  }

  lemma {:induction false} PageAdds(field: FieldStyle, palette: Palette, done: seq<Token>, page: Page)
    requires WritablePage(page, OpenTags(field, palette, done) != [])
    ensures PageReads(field, palette, done, PageTokens(page), PageLook(field, palette, page, Overlay(field.default, OpenTags(field, palette, done))),
                      PageObjections(field, palette, page), LeftOpenCount(page))
    decreases page
  {
    hide Meaning, Complaints, OpenTags, Overlay, Spelled, Inside, Objection, Writable, DocTokens, Look, Objections, WritableDoc;
    var open := OpenTags(field, palette, done);
    var style := Overlay(field.default, open);
    var here, look, said := DocTokens(page.doc), Look(field, palette, page.doc, style), Objections(field, palette, page.doc);
    DocAdds(field, palette, done, page.doc);
    var past := done + here;
    match page
    case Whole(_) =>
      assert here + [] == here && look + [] == look && said + [] == said;
    case Cut(_, tag) =>
      BreakReads(field, palette, past, Broken(tag));
      ThenReads(field, palette, done, here, look, said, 0, [Broken(tag)], Dressed("{" + tag, style), [UnterminatedTag(tag)], 0);
    case Stray(_, next) =>
      BreakReads(field, palette, past, Tag("/"));
      PageAdds(field, palette, past + [Tag("/")], next);
      var further := PageLook(field, palette, next, style);
      ThenReads(field, palette, past, [Tag("/")], [], [UnmatchedClose], 0, PageTokens(next), further,
                PageObjections(field, palette, next), LeftOpenCount(next));
      assert [] + further == further;
      ThenReads(field, palette, done, here, look, said, 0, [Tag("/")] + PageTokens(next), further,
                [UnmatchedClose] + PageObjections(field, palette, next), LeftOpenCount(next));
    case LeftOpen(_, kind, next) =>
      OneTagAdds(field, palette, past, kind);
      var tag := [Tag(Spelled(kind))];
      PageAdds(field, palette, past + tag, next);
      var further := PageLook(field, palette, next, Inside(field, palette, kind, style));
      assert Meaning(field, palette, past) + [] == Meaning(field, palette, past);
      ThenReads(field, palette, past, tag, [], Objection(field, palette, kind), 1, PageTokens(next), further,
                PageObjections(field, palette, next), LeftOpenCount(next));
      assert [] + further == further;
      ThenReads(field, palette, done, here, look, said, 0, tag + PageTokens(next), further,
                Objection(field, palette, kind) + PageObjections(field, palette, next), 1 + LeftOpenCount(next));
  }

  lemma NothingRead(field: FieldStyle, palette: Palette)
    ensures Meaning(field, palette, []) == [] && Complaints(field, palette, []) == [] && OpenTags(field, palette, []) == []
    ensures Overlay(field.default, []) == field.default
  {
  }

  /** Whatever is wrong with a page, it looks so, and each fault is named: bad tags, stray closes and a cut tag in order, then the tags left open. */
  lemma PageLooksSo(field: FieldStyle, palette: Palette, page: Page)
    requires WritablePage(page, false)
    ensures Meaning(field, palette, Tokens(PageMarkup(page))) == PageLook(field, palette, page, field.default)
    ensures Diagnostics(field, palette, Tokens(PageMarkup(page))) == PageDiagnostics(field, palette, page)
  {
    hide PageLook, PageObjections, PageTokens, PageMarkup, LeftOpenCount, Tokens, Meaning, Complaints, OpenTags, WritablePage, Overlay;
    NothingRead(field, palette);
    PageMarkupTokens(page, false);
    PageAdds(field, palette, [], page);
    assert [] + PageTokens(page) == PageTokens(page);
    assert [] + PageLook(field, palette, page, field.default) == PageLook(field, palette, page, field.default);
    assert [] + PageObjections(field, palette, page) == PageObjections(field, palette, page);
  }

  /** A tag around a text, spelled out: the text in the style inside that tag, and what is wrong with the tag. */
  lemma OneTagShows(field: FieldStyle, palette: Palette, kind: Kind, s: string)
    requires Writable(kind)
    ensures var tokens, style := Tokens("{" + Spelled(kind) + "}" + Escape(s) + "{/}"), Inside(field, palette, kind, field.default);
            && Meaning(field, palette, tokens) == seq(|s|, i requires 0 <= i < |s| => (s[i], style))
            && Diagnostics(field, palette, tokens) == Objection(field, palette, kind)
  {
    hide Meaning, Diagnostics, Tokens, Spelled, Escape, Inside, Objection;
    var text := Text(s, End);
    var doc := Tagged(kind, text, End);
    assert WritableDoc(text);
    var style := Inside(field, palette, kind, field.default);
    DocumentLooksSo(field, palette, doc);
    assert Markup(text) == Escape(s) + [] == Escape(s);
    assert Markup(doc) == "{" + Spelled(kind) + "}" + Escape(s) + "{/}";
    assert Look(field, palette, text, style) == Dressed(s, style);
    assert Look(field, palette, doc, field.default) == Dressed(s, style);
    assert Objections(field, palette, doc) == Objection(field, palette, kind);
  }

  /** Marked-up text shows these characters in one style, with these diagnostics. */
  ghost predicate ShowsAs(field: FieldStyle, palette: Palette, input: string, s: string, style: Style, said: seq<Diagnostic>) {
    && Meaning(field, palette, Tokens(input)) == seq(|s|, i requires 0 <= i < |s| => (s[i], style))
    && Diagnostics(field, palette, Tokens(input)) == said
  }

  /** Colour tags as they are typed: the palette's colour where it belongs, or the field's own style and the complaint. */
  lemma ColorTagsShow(field: FieldStyle, palette: Palette, name: string, s: string)
    requires '}' !in name
    ensures field.allowColors && name in palette ==>
              && ShowsAs(field, palette, "{fg=" + name + "}" + Escape(s) + "{/}", s, field.default.(fg := Some(palette[name])), [])
              && ShowsAs(field, palette, "{bg=" + name + "}" + Escape(s) + "{/}", s, field.default.(bg := Some(palette[name])), [])
    ensures field.allowColors && name !in palette ==>
              && ShowsAs(field, palette, "{fg=" + name + "}" + Escape(s) + "{/}", s, field.default, [UnknownColor(name)])
              && ShowsAs(field, palette, "{bg=" + name + "}" + Escape(s) + "{/}", s, field.default, [UnknownColor(name)])
    ensures !field.allowColors ==>
              && ShowsAs(field, palette, "{fg=" + name + "}" + Escape(s) + "{/}", s, field.default, [DisallowedTag("fg=" + name)])
              && ShowsAs(field, palette, "{bg=" + name + "}" + Escape(s) + "{/}", s, field.default, [DisallowedTag("bg=" + name)])
  {
    hide Meaning, Diagnostics, Tokens, Escape;
    OneTagShows(field, palette, Foreground(name), s);
    OneTagShows(field, palette, Background(name), s);
    assert "{" + ("fg=" + name) + "}" == "{fg=" + name + "}" && "{" + ("bg=" + name) + "}" == "{bg=" + name + "}";
  }

  /** Attribute tags as they are typed. */
  lemma AttributeTagsShow(field: FieldStyle, palette: Palette, letter: char, attribute: Attribute, s: string)
    requires (letter, attribute) in {('b', Bold), ('i', Italic), ('u', Underline)}
    ensures ShowsAs(field, palette, ['{', letter, '}'] + Escape(s) + "{/}", s,
                    if attribute in field.allowedAttrs then field.default.(attrs := field.default.attrs + {attribute}) else field.default,
                    if attribute in field.allowedAttrs then [] else [DisallowedTag([letter])])
  {
    hide Meaning, Diagnostics, Tokens, Escape;
    var kind := if letter == 'b' then BoldTag else if letter == 'i' then ItalicTag else UnderlineTag;
    OneTagShows(field, palette, kind, s);
    assert "{" + Spelled(kind) + "}" == ['{', letter, '}'];
  }
}
