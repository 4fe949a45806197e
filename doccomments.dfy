/**
 * Javadoc comments rendered as Objective-C doc comments: tag by tag, with
 * the tags Xcode understands kept, a `@brief` line made of the first
 * sentence of the description, and the text escaped so that it can sit
 * inside a C comment.
 */
module DocComments {
  import opened Text
  import opened Ast

  // ---------------------------------------------------------------------
  // Escaping (escapeDocText)

  // Every `@` doubled, then every comment opener `/*` written with a
  // backslash before the star. Escaped text never opens a comment, never
  // closes one that the original text did not close, and has twice as many
  // `@` as the original.
  function EscapeDocText(s: string): (r: string)
    ensures NoCommentOpen(r)
    ensures NoCommentClose(s) ==> NoCommentClose(r)
    ensures Count(r, '@') == 2 * Count(s, '@')
  {
    DoubleAtFacts(s, '*', '/');
    EscapeCommentOpenFacts(DoubleAt(s));
    EscapeCommentOpen(DoubleAt(s))
  }

  /** The doubling half of the escape is undone by `replace("@@", "@")`. */
  lemma EscapedAtsRoundTrip(s: string)
    ensures UndoubleAt(DoubleAt(s)) == s
  {
    UndoubleAtInvertsDoubleAt(s);
  }

  // ---------------------------------------------------------------------
  // Tags and fragments (printJavadocTag, printTagFragments)

  /** The block tags Xcode's Quick Help understands; they are kept with their name. */
  const XcodeTags: seq<string> := ["@author", "@exception", "@param", "@return", "@since", "@throws", "@version"]

  /** One fragment: escaped and trimmed text, or a nested tag rendered as a tag. */
  function FragmentText(f: DocFragment): string
    decreases f, 0
  {
    match f
    case TextFragment(t) => Trim(EscapeDocText(t))
    case InlineTag(name, fs) => TagText(name, fs)
  }

  /**
   * A named tag: an Xcode tag keeps its name before its text, `@deprecated`
   * (translated as an attribute instead) and `@see` are dropped, `@code`
   * becomes `<code>...</code>`, and any other tag is replaced by its text.
   */
  function TagText(name: string, fs: seq<DocFragment>): string
    decreases fs, 2
  {
    if name in XcodeTags then name + " " + FragmentsText(fs)
    else if name == "@deprecated" || name == "@see" then ""
    else if name == "@code" then "<code>" + FragmentsText(fs) + "</code>"
    else FragmentsText(fs)
  }

  /** The fragments, each after one space, with the whole trimmed. */
  function FragmentsText(fs: seq<DocFragment>): string
    decreases fs, 1
  {
    Trim(SpacedFragments(fs))
  }

  /** The concatenation of `" " + fragment` over the fragments, before trimming. */
  function SpacedFragments(fs: seq<DocFragment>): string
    decreases fs, 0
  {
    if fs == [] then "" else SpacedFragments(fs[..|fs| - 1]) + " " + FragmentText(fs[|fs| - 1])
  }

  /**
   * The tag printer, mutually recursive with `PrintTagFragments` as in the
   * generator, where the fragments' text is built in a string builder. It branches on
   * the tag name the way `TagText` does because `TagText` is its
   * specification: the functions above state what the text is, and this
   * method and `PrintTagFragments` are proved to build exactly that text.
   */
  method PrintJavadocTag(name: string, fs: seq<DocFragment>) returns (r: string)
    ensures r == TagText(name, fs)
    decreases fs, 1
  {
    if name == "@author" || name == "@exception" || name == "@param" || name == "@return"
      || name == "@since" || name == "@throws" || name == "@version"
    {
      var text := PrintTagFragments(fs);
      return name + " " + text;
    }
    if name == "@deprecated" {
      return "";
    }
    if name == "@see" {
      return "";
    }
    if name == "@code" {
      var text := PrintTagFragments(fs);
      return "<code>" + text + "</code>";
    }
    r := PrintTagFragments(fs);
  }

  method PrintTagFragments(fs: seq<DocFragment>) returns (r: string)
    ensures r == FragmentsText(fs)
    decreases fs, 0
  {
    var sb := "";
    for i := 0 to |fs|
      invariant sb == SpacedFragments(fs[..i])
    {
      sb := sb + " ";
      var piece;
      match fs[i] {
        case TextFragment(t) =>
          var text := EscapeDocText(t);
          piece := Trim(text);
        case InlineTag(name, inner) =>
          piece := PrintJavadocTag(name, inner);
      }
      sb := sb + piece;
      assert fs[..i + 1][..i] == fs[..i];
    }
    assert fs[..|fs|] == fs;
    r := Trim(sb);
  }

  /** Rendered fragments never begin or end with white space. */
  lemma FragmentsTextIsTrimmed(fs: seq<DocFragment>)
    ensures IsTrimmed(FragmentsText(fs))
  {
    TrimIsTrimmed(SpacedFragments(fs));
  }

  /**
   * A text fragment keeps every `@` of the original twice: trimming only
   * removes chars at or below the space.
   */
  lemma TextFragmentAts(t: string)
    ensures Count(FragmentText(TextFragment(t)), '@') == 2 * Count(t, '@')
  {
    TrimKeepsVisible(EscapeDocText(t), '@');
  }

  // ---------------------------------------------------------------------
  // The rendered text is safe inside a C comment.

  /** Neither a comment opener nor a comment closer. */
  predicate CommentSafe(s: string) {
    NoCommentOpen(s) && NoCommentClose(s)
  }

  /** Every text in the fragment tree is free of the comment closer (as Javadoc text always is). */
  predicate TextsClosed(f: DocFragment)
    decreases f
  {
    match f
    case TextFragment(t) => NoCommentClose(t)
    case InlineTag(_, fs) => forall i :: 0 <= i < |fs| ==> TextsClosed(fs[i])
  }

  predicate AllTextsClosed(fs: seq<DocFragment>) {
    forall i :: 0 <= i < |fs| ==> TextsClosed(fs[i])
  }

  // A string without `*` holds neither `/*` nor `*/`.
  lemma StarFreeIsSafe(s: string)
    requires '*' !in s
    ensures CommentSafe(s)
  {
  }

  /** The last char of `a` and the first of `b` form neither delimiter. */
  predicate SafeSeam(a: string, b: string) {
    a == [] || b == [] || (b[0] != '*' && b[0] != '/') || (a[|a| - 1] != '/' && a[|a| - 1] != '*')
  }

  /** Gluing comment-safe strings is safe when the seam is. */
  lemma SafeConcat(a: string, b: string)
    requires CommentSafe(a) && CommentSafe(b) && SafeSeam(a, b)
    ensures CommentSafe(a + b)
  {
    NoPairConcat(a, b, '/', '*');
    NoPairConcat(a, b, '*', '/');
  }

  lemma SafeTrim(s: string)
    requires CommentSafe(s)
    ensures CommentSafe(Trim(s))
  {
    NoPairTrim(s, '/', '*');
    NoPairTrim(s, '*', '/');
  }

  lemma SafeSlice(s: string, a: nat, b: nat)
    requires a <= b <= |s| && CommentSafe(s)
    ensures CommentSafe(s[a..b])
  {
    NoPairSlice(s, a, b, '/', '*');
    NoPairSlice(s, a, b, '*', '/');
  }

  /**
   * Whatever the fragments hold, their rendering opens no comment, and it
   * closes none as long as the Javadoc texts do not.
   */
  lemma {:induction false} FragmentTextSafe(f: DocFragment)
    requires TextsClosed(f)
    ensures CommentSafe(FragmentText(f))
    decreases f, 0
  {
    match f
    case TextFragment(t) =>
        SafeTrim(EscapeDocText(t));
    case InlineTag(name, fs) =>
      TagTextSafe(name, fs);
  }

  lemma {:induction false} TagTextSafe(name: string, fs: seq<DocFragment>)
    requires AllTextsClosed(fs)
    ensures CommentSafe(TagText(name, fs))
    decreases fs, 2
  {
    var text := FragmentsText(fs);
    FragmentsTextSafe(fs);
    if name in XcodeTags {
      assert '*' !in name + " ";
      StarFreeIsSafe(name + " ");
      SafeConcat(name + " ", text);
    } else if name == "@code" {
      StarFreeIsSafe("<code>");
      StarFreeIsSafe("</code>");
      SafeConcat("<code>", text);
      SafeConcat("<code>" + text, "</code>");
    } else if name == "@deprecated" || name == "@see" {
      StarFreeIsSafe("");
    }
  }

  lemma {:induction false} FragmentsTextSafe(fs: seq<DocFragment>)
    requires AllTextsClosed(fs)
    ensures CommentSafe(FragmentsText(fs))
    decreases fs, 1
  {
    SpacedFragmentsSafe(fs);
    SafeTrim(SpacedFragments(fs));
  }

  lemma {:induction false} SpacedFragmentsSafe(fs: seq<DocFragment>)
    requires AllTextsClosed(fs)
    ensures CommentSafe(SpacedFragments(fs))
    decreases fs, 0
  {
    if fs != [] {
      var init := fs[..|fs| - 1];
      assert AllTextsClosed(init) by {
        assert forall i :: 0 <= i < |init| ==> init[i] == fs[i];
      }
      SpacedFragmentsSafe(init);
      FragmentTextSafe(fs[|fs| - 1]);
      var prev := SpacedFragments(init);
      StarFreeIsSafe(" ");
      SafeConcat(prev, " ");
      SafeConcat(prev + " ", FragmentText(fs[|fs| - 1]));
    }
  }

  // ---------------------------------------------------------------------
  // Lines of the comment (printDocComment)

  /**
   * The sentence-boundary service: for a text, the end of its first
   * sentence, or `None` when the text has none (`BreakIterator.DONE`).
   * The end lies within the text, and the empty text has no sentence.
   */
  ghost predicate ValidSentenceBreaker(sentenceEnd: string -> Option<nat>) {
    && (forall d :: sentenceEnd(d).Some? ==> sentenceEnd(d).value <= |d|)
    && sentenceEnd("").None?
  }

  /**
   * The lines for one tag. The description gives `@brief` and its first
   * sentence, then the rest when that is not empty, or the whole
   * description when it has no sentence; a named tag gives its rendering
   * when that is not empty.
   */
  function TagLines(tag: Tag, sentenceEnd: string -> Option<nat>): seq<string>
    requires ValidSentenceBreaker(sentenceEnd)
  {
    match tag.tagName
    case None => DescriptionLines(FragmentsText(tag.fragments), sentenceEnd)
    case Some(name) =>
      var doc := TagText(name, tag.fragments);
      if doc != "" then [doc] else []
  }

  /** The lines of the rendered description. */
  function DescriptionLines(description: string, sentenceEnd: string -> Option<nat>): seq<string>
    requires ValidSentenceBreaker(sentenceEnd)
  {
    match sentenceEnd(description)
    case Some(end) =>
      var remainder := Trim(description[end..]);
      ["@brief " + Trim(description[..end])] + (if remainder != "" then [remainder] else [])
    case None => [Trim(description)]
  }

  function DocLines(tags: seq<Tag>, sentenceEnd: string -> Option<nat>): seq<string>
    requires ValidSentenceBreaker(sentenceEnd)
  {
    if tags == [] then []
    else DocLines(tags[..|tags| - 1], sentenceEnd) + TagLines(tags[|tags| - 1], sentenceEnd)
  }

  /** `printDocLine`: a space, the line and a line break. */
  function DocLine(line: string): string {
    " " + line + "\n"
  }

  function DocBody(lines: seq<string>): string {
    if lines == [] then "" else DocBody(lines[..|lines| - 1]) + DocLine(lines[|lines| - 1])
  }

  // The whole comment: nothing without a Javadoc, otherwise `/**`, the lines and ` */`.
  function DocCommentText(javadoc: Option<Javadoc>, sentenceEnd: string -> Option<nat>): string
    requires ValidSentenceBreaker(sentenceEnd)
  {
    match javadoc
    case None => ""
    case Some(doc) => "/**\n" + DocBody(DocLines(doc.tags, sentenceEnd)) + " */\n"
  }

  /**
   * The description gives one line when the sentence service finds no
   * sentence, the rendered description itself; otherwise a `@brief` line
   * with the first sentence, trimmed, and a second line only for a
   * non-empty rest. An empty description gives one empty line.
   */
  lemma DescriptionLayout(d: string, sentenceEnd: string -> Option<nat>)
    requires ValidSentenceBreaker(sentenceEnd) && IsTrimmed(d)
    ensures var lines := DescriptionLines(d, sentenceEnd);
      && 1 <= |lines| <= 2
      && (sentenceEnd(d).None? ==> lines == [d])
      && (d == "" ==> lines == [""])
      && (sentenceEnd(d).Some? ==>
            && lines[0] == "@brief " + Trim(d[..sentenceEnd(d).value])
            && (|lines| == 2 <==> Trim(d[sentenceEnd(d).value..]) != "")
            && (|lines| == 2 ==> IsTrimmed(lines[1])))
  {
    match sentenceEnd(d) {
      case Some(end) =>
        TrimIsTrimmed(d[end..]);
      case None =>
        TrimmedIsFixed(d);
    }
  }

  /** The untagged section is rendered and then laid out as a description. */
  lemma DescriptionTagLines(fs: seq<DocFragment>, sentenceEnd: string -> Option<nat>)
    requires ValidSentenceBreaker(sentenceEnd)
    ensures TagLines(Tag(None, fs), sentenceEnd) == DescriptionLines(FragmentsText(fs), sentenceEnd)
    ensures IsTrimmed(FragmentsText(fs))
  {
    FragmentsTextIsTrimmed(fs);
  }

  /**
   * A named tag gives at most one line: none for `@deprecated` and `@see`,
   * and for an Xcode tag a line that starts with the tag's name and a space.
   */
  lemma NamedTagLines(name: string, fs: seq<DocFragment>, sentenceEnd: string -> Option<nat>)
    requires ValidSentenceBreaker(sentenceEnd)
    ensures var lines := TagLines(Tag(Some(name), fs), sentenceEnd);
      && |lines| <= 1
      && (name == "@deprecated" || name == "@see" ==> lines == [])
      && (name in XcodeTags ==> |lines| == 1 && StartsWith(lines[0], name + " "))
  {
  }

  /** The body of a comment is the bodies of its parts, in order. */
  lemma {:induction false} DocBodyAppend(a: seq<string>, b: seq<string>)
    ensures DocBody(a + b) == DocBody(a) + DocBody(b)
    decreases |b|
  {
    if b == [] {
      assert a + b == a;
    } else {
      var b' := b[..|b| - 1];
      assert (a + b)[..|a + b| - 1] == a + b';
      DocBodyAppend(a, b');
    }
  }

  /** The lines of a comment are the lines of its tags, in order. */
  lemma {:induction false} DocLinesAppend(a: seq<Tag>, b: seq<Tag>, sentenceEnd: string -> Option<nat>)
    requires ValidSentenceBreaker(sentenceEnd)
    ensures DocLines(a + b, sentenceEnd) == DocLines(a, sentenceEnd) + DocLines(b, sentenceEnd)
    decreases |b|
  {
    if b == [] {
      assert a + b == a;
    } else {
      var b' := b[..|b| - 1];
      var last := b[|b| - 1];
      DocLinesAppend(a, b', sentenceEnd);
      var t := TagLines(last, sentenceEnd);
      assert (a + b)[..|a + b| - 1] == a + b' && (a + b)[|a + b| - 1] == last;
      assert DocLines(a + b, sentenceEnd) == DocLines(a + b', sentenceEnd) + t;
      assert DocLines(b, sentenceEnd) == DocLines(b', sentenceEnd) + t;
      ConcatAssoc(DocLines(a, sentenceEnd), DocLines(b', sentenceEnd), t);
    }
  }

  lemma DescriptionLinesSafe(d: string, sentenceEnd: string -> Option<nat>)
    requires ValidSentenceBreaker(sentenceEnd) && CommentSafe(d)
    ensures forall k :: 0 <= k < |DescriptionLines(d, sentenceEnd)| ==>
      CommentSafe(DescriptionLines(d, sentenceEnd)[k])
  {
    var lines := DescriptionLines(d, sentenceEnd);
    if sentenceEnd(d).Some? {
      var end := sentenceEnd(d).value;
      var remainder := Trim(d[end..]);
      assert lines == ["@brief " + Trim(d[..end])] + (if remainder != "" then [remainder] else []);
      SplitSentenceSafe(d, end);
    } else {
      assert lines == [Trim(d)];
      SafeTrim(d);
    }
  }

  lemma SplitSentenceSafe(d: string, end: nat)
    requires end <= |d| && CommentSafe(d)
    ensures CommentSafe("@brief " + Trim(d[..end])) && CommentSafe(Trim(d[end..]))
  {
    SafeSlice(d, 0, end);
    SafeSlice(d, end, |d|);
    SafeTrim(d[..end]);
    SafeTrim(d[end..]);
    StarFreeIsSafe("@brief ");
    SafeConcat("@brief ", Trim(d[..end]));
  }

  lemma TagLinesSafe(tag: Tag, sentenceEnd: string -> Option<nat>)
    requires ValidSentenceBreaker(sentenceEnd) && AllTextsClosed(tag.fragments)
    ensures forall k :: 0 <= k < |TagLines(tag, sentenceEnd)| ==> CommentSafe(TagLines(tag, sentenceEnd)[k])
  {
    if tag.tagName.None? {
      FragmentsTextSafe(tag.fragments);
      DescriptionLinesSafe(FragmentsText(tag.fragments), sentenceEnd);
    } else {
      var name := tag.tagName.value;
      var doc := TagText(name, tag.fragments);
      assert TagLines(tag, sentenceEnd) == if doc != "" then [doc] else [];
      TagTextSafe(name, tag.fragments);
    }
  }

  lemma {:induction false} DocLinesSafe(tags: seq<Tag>, sentenceEnd: string -> Option<nat>)
    requires ValidSentenceBreaker(sentenceEnd)
    requires forall t :: 0 <= t < |tags| ==> AllTextsClosed(tags[t].fragments)
    ensures forall k :: 0 <= k < |DocLines(tags, sentenceEnd)| ==> CommentSafe(DocLines(tags, sentenceEnd)[k])
  {
    if tags != [] {
      var init := tags[..|tags| - 1];
      DocLinesSafe(init, sentenceEnd);
      TagLinesSafe(tags[|tags| - 1], sentenceEnd);
    }
  }

  lemma {:induction false} DocBodySafe(lines: seq<string>)
    requires forall k :: 0 <= k < |lines| ==> CommentSafe(lines[k])
    ensures CommentSafe(DocBody(lines))
    ensures DocBody(lines) == [] || DocBody(lines)[|DocBody(lines)| - 1] == '\n'
  {
    if lines != [] {
      var init := lines[..|lines| - 1];
      var last := lines[|lines| - 1];
      DocBodySafe(init);
      StarFreeIsSafe(" ");
      StarFreeIsSafe("\n");
      SafeConcat(" ", last);
      SafeConcat(" " + last, "\n");
      SafeConcat(DocBody(init), DocLine(last));
    }
  }

  // The comment is sealed: it is empty without a Javadoc; otherwise it is
  // `/**` and a line break, a body that neither opens nor closes a comment,
  // and ` */` with a line break, as long as no Javadoc text holds `*/`.
  lemma DocCommentSealed(javadoc: Option<Javadoc>, sentenceEnd: string -> Option<nat>)
    requires ValidSentenceBreaker(sentenceEnd)
    requires javadoc.Some? ==> forall t :: 0 <= t < |javadoc.value.tags| ==> AllTextsClosed(javadoc.value.tags[t].fragments)
    ensures javadoc.None? ==> DocCommentText(javadoc, sentenceEnd) == ""
    ensures javadoc.Some? ==>
      var text := DocCommentText(javadoc, sentenceEnd);
      && |text| >= 8
      && text[..4] == "/**\n"
      && text[|text| - 4..] == " */\n"
      && CommentSafe(text[4..|text| - 4])
  {
    if javadoc.Some? {
      var lines := DocLines(javadoc.value.tags, sentenceEnd);
      DocLinesSafe(javadoc.value.tags, sentenceEnd);
      DocBodySafe(lines);
      var body := DocBody(lines);
      var text := DocCommentText(javadoc, sentenceEnd);
      assert text == "/**\n" + body + " */\n";
      assert text[4..|text| - 4] == body;
    }
  }
}
