/**
 * Method, constructor, annotation-constructor and C-function signatures
 * as the Objective-C generator renders them.
 */
module Declarations {
  import opened Text
  import opened Ast

  // ---------------------------------------------------------------------
  // Method declarations (constructMethodDeclaration)

  /** `+` for a static (class) method, `-` for an instance method. */
  function MethodPrefix(m: MethodDecl): char {
    if m.modifiers.isStatic then '+' else '-'
  }

  /**
   * Constructors return `instancetype`; a method whose selector is `hash`
   * returns `NSUInteger`, as NSObject's `hash` does; every other method its
   * declared type.
   */
  function RenderedReturnType(m: MethodDecl, selector: string): string {
    if m.isConstructor then "instancetype"
    else if selector == "hash" then "NSUInteger"
    else m.returnType
  }

  /** The text before the first selector segment: `"%c (%s)"`. */
  function Header(m: MethodDecl, selector: string): string {
    [MethodPrefix(m)] + " (" + RenderedReturnType(m, selector) + ")"
  }

  /**
   * The generator's arity assertion: a method without parameters has a
   * selector of one segment without a trailing colon, otherwise one segment
   * per parameter.
   */
  predicate SelectorFitsParams(params: seq<Param>, selector: string) {
    var parts := JavaSplit(selector, ':');
    if params == [] then |parts| == 1 && !EndsWith(selector, ":")
    else |parts| == |params|
  }

  /** `"%s:(%s)%s"` of a selector segment, the parameter's type and its name. */
  function ParamChunk(segment: string, p: Param): string {
    segment + ":(" + p.objcType + ")" + p.name
  }

  /**
   * Line `i` of a declaration with parameters. The first holds the header
   * and the first parameter's chunk; every later line is padded so that its
   * segment ends where the first line's segment ends.
   */
  function DeclarationLine(m: MethodDecl, selector: string, i: nat): string
    requires SelectorFitsParams(m.params, selector) && i < |m.params|
  {
    LineLead(m, selector, i) + ParamChunk(JavaSplit(selector, ':')[i], m.params[i])
  }

  /** What precedes the segment on line `i`: the header, or the padding `pad(baseLength - segment length)`. */
  function LineLead(m: MethodDecl, selector: string, i: nat): string
    requires SelectorFitsParams(m.params, selector) && i < |m.params|
  {
    var parts := JavaSplit(selector, ':');
    var header := Header(m, selector);
    if i == 0 then header else Spaces(|header| + |parts[0]| - |parts[i]|)
  }

  /** The first `n` lines of a declaration with parameters. */
  function LinesBefore(m: MethodDecl, selector: string, n: nat): (lines: seq<string>)
    requires SelectorFitsParams(m.params, selector) && n <= |m.params|
    ensures |lines| == n
  {
    if n == 0 then [] else LinesBefore(m, selector, n - 1) + [DeclarationLine(m, selector, n - 1)]
  }

  lemma {:induction false} LinesBeforeAt(m: MethodDecl, selector: string, n: nat, i: nat)
    requires SelectorFitsParams(m.params, selector) && i < n <= |m.params|
    ensures LinesBefore(m, selector, n)[i] == DeclarationLine(m, selector, i)
  {
    if i < n - 1 {
      LinesBeforeAt(m, selector, n - 1, i);
    }
  }

  /** The lines of the declaration: the header and the selector alone, or one line per parameter. */
  function DeclarationLines(m: MethodDecl, selector: string): (lines: seq<string>)
    requires SelectorFitsParams(m.params, selector)
    ensures |lines| == if m.params == [] then 1 else |m.params|
  {
    if m.params == [] then [Header(m, selector) + JavaSplit(selector, ':')[0]]
    else LinesBefore(m, selector, |m.params|)
  }

  /** The declaration text: its lines joined by newlines. */
  function DeclarationText(m: MethodDecl, selector: string): string
    requires SelectorFitsParams(m.params, selector)
  {
    JoinWith(DeclarationLines(m, selector), '\n')
  }

  method ConstructMethodDeclaration(m: MethodDecl, selector: string) returns (r: string)
    requires SelectorFitsParams(m.params, selector)
    ensures r == DeclarationText(m, selector)
  {
    var prefix := if m.modifiers.isStatic then '+' else '-';
    var returnType := m.returnType;
    if m.isConstructor {
      returnType := "instancetype";
    } else if selector == "hash" {
      returnType := "NSUInteger";
    }
    var sb := [prefix] + " (" + returnType + ")";
    assert sb == Header(m, selector);
    var selParts := JavaSplit(selector, ':');
    if m.params == [] {
      sb := sb + selParts[0];
    } else {
      var baseLength := |sb| + |selParts[0]|;
      var i := 0;
      while i < |m.params|
        invariant 0 <= i <= |m.params|
        invariant i == 0 ==> sb == Header(m, selector)
        invariant i > 0 ==> sb == JoinWith(LinesBefore(m, selector, i), '\n')
      {
        ghost var before := sb;
        var lead := "";
        if i != 0 {
          sb := sb + "\n";
          lead := Spaces(baseLength - |selParts[i]|);
          sb := sb + lead;
        }
        var p := m.params[i];
        var chunk := selParts[i] + ":(" + p.objcType + ")" + p.name;
        sb := sb + chunk;
        LineAppended(m, selector, i, before, lead, chunk);
        i := i + 1;
      }
    }
    r := sb;
  }

  /** Appending line `i` (after a newline and its padding, past the first line) extends the declaration by one line. */
  lemma LineAppended(m: MethodDecl, selector: string, i: nat, before: string, lead: string, chunk: string)
    requires SelectorFitsParams(m.params, selector) && i < |m.params|
    requires i == 0 ==> before == Header(m, selector)
    requires i > 0 ==> before == JoinWith(LinesBefore(m, selector, i), '\n')
    requires i > 0 ==> lead == LineLead(m, selector, i)
    requires chunk == ParamChunk(JavaSplit(selector, ':')[i], m.params[i])
    ensures (if i == 0 then before + chunk else before + "\n" + lead + chunk)
         == JoinWith(LinesBefore(m, selector, i + 1), '\n')
  {
    if i == 0 {
      assert before + chunk == DeclarationLine(m, selector, 0);
      assert LinesBefore(m, selector, 1) == [DeclarationLine(m, selector, 0)];
    } else {
      ConcatAssoc(before + "\n", lead, chunk);
      JoinWithSnoc(LinesBefore(m, selector, i), DeclarationLine(m, selector, i), '\n');
    }
  }

  /**
   * The declaration opens with `+` exactly for static methods, then the
   * return type in parentheses: `instancetype` for constructors,
   * `NSUInteger` for the `hash` selector, the declared type otherwise.
   */
  lemma DeclarationHeader(m: MethodDecl, selector: string)
    requires SelectorFitsParams(m.params, selector)
    ensures var text := DeclarationText(m, selector);
      && (text[0] == '+' <==> m.modifiers.isStatic)
      && (text[0] == '-' <==> !m.modifiers.isStatic)
      && StartsWith(text[1..], " (" + (if m.isConstructor then "instancetype"
                                       else if selector == "hash" then "NSUInteger"
                                       else m.returnType) + ")")
  {
    var text := DeclarationText(m, selector);
    var h := Header(m, selector);
    var rest := " (" + RenderedReturnType(m, selector) + ")";
    DeclarationStartsWithHeader(m, selector);
    assert h == [MethodPrefix(m)] + rest by {
      ConcatAssoc([MethodPrefix(m)], " (", RenderedReturnType(m, selector));
      ConcatAssoc([MethodPrefix(m)], " (" + RenderedReturnType(m, selector), ")");
    }
    assert text[0] == MethodPrefix(m) by {
      assert text[..|h|][0] == h[0];
    }
    assert text[1..][..|rest|] == rest by {
      assert text[1..][..|rest|] == text[..|h|][1..];
    }
  }

  /** The text opens with the header, whatever the parameters. */
  lemma DeclarationStartsWithHeader(m: MethodDecl, selector: string)
    requires SelectorFitsParams(m.params, selector)
    ensures StartsWith(DeclarationText(m, selector), Header(m, selector))
  {
    var lines := DeclarationLines(m, selector);
    var h := Header(m, selector);
    JoinWithStartsWithFirst(lines, '\n');
    if m.params != [] {
      LinesBeforeAt(m, selector, |m.params|, 0);
    }
    assert StartsWith(lines[0], h) by {
      assert lines[0][..|h|] == h;
    }
    var text := DeclarationText(m, selector);
    assert text[..|lines[0]|] == lines[0];
    assert text[..|h|] == h;
  }

  /** Joining pieces whose trailing ones are empty ends with the separator. */
  lemma SplitWithDroppedPieceEndsWithSep(s: string, sep: char)
    requires |JavaSplit(s, sep)| == 1
    ensures sep in s ==> EndsWith(s, [sep])
  {
    if sep in s {
      var all := SplitAll(s, sep);
      JoinWithSplitAll(s, sep);
      SplitAllPieces(s, sep);
      DropTrailingEmptyFacts(all);
      SinglePieceLacksSep(s, sep);
      assert all[|all| - 1] == "";
      JoinWithEndsWithSep(all, sep);
    }
  }

  /** A text that splits into one piece holds no separator. */
  lemma SinglePieceLacksSep(s: string, sep: char)
    ensures |SplitAll(s, sep)| == 1 ==> sep !in s
  {
    var all := SplitAll(s, sep);
    JoinWithSplitAll(s, sep);
    SplitAllPieces(s, sep);
    if |all| == 1 {
      assert JoinWith(all, sep) == all[0];
    }
  }

  /**
   * A method without parameters renders `prefix (type)selector`: the
   * selector has no colon, and the text has no line break when neither the
   * selector nor the return type has one.
   */
  lemma ZeroParamDeclaration(m: MethodDecl, selector: string)
    requires SelectorFitsParams(m.params, selector) && m.params == []
    ensures ':' !in selector
    ensures DeclarationText(m, selector) == Header(m, selector) + selector
    ensures '\n' !in selector && '\n' !in RenderedReturnType(m, selector) ==>
              '\n' !in DeclarationText(m, selector)
  {
    SplitWithDroppedPieceEndsWithSep(selector, ':');
    assert [':'] == ":";
  }

  /**
   * The column of the first colon on line `i`: the header plus the first
   * segment, or the segment's own length when that is longer (no padding).
   */
  function ColonColumn(m: MethodDecl, selector: string, i: nat): nat
    requires SelectorFitsParams(m.params, selector) && i < |m.params|
  {
    var parts := JavaSplit(selector, ':');
    var base := |Header(m, selector)| + |parts[0]|;
    if |parts[i]| <= base then base else |parts[i]|
  }

  /** The line of parameter `i` and the column of its first colon. */
  lemma LineLayout(m: MethodDecl, selector: string, i: nat)
    requires SelectorFitsParams(m.params, selector)
    requires i < |m.params|
    requires ':' !in RenderedReturnType(m, selector)
    ensures ColonColumn(m, selector, i) < |DeclarationLine(m, selector, i)|
    ensures IndexOf(DeclarationLine(m, selector, i), ':') == ColonColumn(m, selector, i)
    ensures DeclarationLine(m, selector, i)[ColonColumn(m, selector, i) - |JavaSplit(selector, ':')[i]|..ColonColumn(m, selector, i)]
         == JavaSplit(selector, ':')[i]
    ensures DeclarationLine(m, selector, i)[ColonColumn(m, selector, i) + 1..]
         == "(" + m.params[i].objcType + ")" + m.params[i].name
  {
    LineParts(m, selector, i);
    ChunkColon(LineLead(m, selector, i), JavaSplit(selector, ':')[i], m.params[i],
               DeclarationLine(m, selector, i), ColonColumn(m, selector, i));
  }

  /** Everything before the segment on line `i` is its lead: the header or the padding. */
  lemma LinePadding(m: MethodDecl, selector: string, i: nat)
    requires SelectorFitsParams(m.params, selector)
    requires i < |m.params|
    requires ':' !in RenderedReturnType(m, selector)
    ensures ColonColumn(m, selector, i) - |JavaSplit(selector, ':')[i]| <= |DeclarationLine(m, selector, i)|
    ensures DeclarationLine(m, selector, i)[..ColonColumn(m, selector, i) - |JavaSplit(selector, ':')[i]|]
         == LineLead(m, selector, i)
  {
    LineParts(m, selector, i);
    ChunkColon(LineLead(m, selector, i), JavaSplit(selector, ':')[i], m.params[i],
               DeclarationLine(m, selector, i), ColonColumn(m, selector, i));
  }

  /** Neither the lead nor the segment of line `i` holds a colon, and together they span the column. */
  lemma LineParts(m: MethodDecl, selector: string, i: nat)
    requires SelectorFitsParams(m.params, selector)
    requires i < |m.params|
    requires ':' !in RenderedReturnType(m, selector)
    ensures ':' !in JavaSplit(selector, ':')[i]
    ensures ':' !in LineLead(m, selector, i)
    ensures |LineLead(m, selector, i)| + |JavaSplit(selector, ':')[i]| == ColonColumn(m, selector, i)
  {
    var parts := JavaSplit(selector, ':');
    JavaSplitPieces(selector, ':');
    if i == 0 {
      HeaderLacks(m, selector, ':');
    } else {
      SpacesAreBlank(|Header(m, selector)| + |parts[0]| - |parts[i]|);
    }
  }

  /** The first line leads with the header, every later line with spaces only. */
  lemma LineLeadShape(m: MethodDecl, selector: string, i: nat)
    requires SelectorFitsParams(m.params, selector) && i < |m.params|
    ensures i == 0 ==> LineLead(m, selector, i) == Header(m, selector)
    ensures i > 0 ==> forall k :: 0 <= k < |LineLead(m, selector, i)| ==> LineLead(m, selector, i)[k] == ' '
  {
    var parts := JavaSplit(selector, ':');
    SpacesAreBlank(|Header(m, selector)| + |parts[0]| - |parts[i]|);
  }

  /** The header holds only the prefix, ` (`, the return type and `)`. */
  lemma HeaderLacks(m: MethodDecl, selector: string, c: char)
    requires c !in RenderedReturnType(m, selector) && c !in "+- ()"
    ensures c !in Header(m, selector)
  {
    var rt := RenderedReturnType(m, selector);
    var h := Header(m, selector);
    assert h == [MethodPrefix(m), ' ', '('] + rt + [')'];
    forall k | 0 <= k < |h| ensures h[k] != c {
      if 3 <= k < 3 + |rt| {
        assert h[k] == rt[k - 3];
      }
    }
  }

  /** After a colon-free lead, the first colon of a chunk follows its colon-free segment. */
  lemma ChunkColon(lead: string, seg: string, p: Param, line: string, col: nat)
    requires ':' !in lead && ':' !in seg
    requires line == lead + ParamChunk(seg, p)
    requires col == |lead| + |seg|
    ensures col < |line|
    ensures IndexOf(line, ':') == col
    ensures line[col - |seg|..col] == seg
    ensures line[col + 1..] == "(" + p.objcType + ")" + p.name
    ensures line[..col - |seg|] == lead
  {
    ParamChunkShape(seg, p);
    ChunkIndex(lead, seg, "(" + p.objcType + ")" + p.name, line);
    ChunkPieces(lead, seg, "(" + p.objcType + ")" + p.name, line);
  }

  lemma ChunkIndex(lead: string, seg: string, rest: string, line: string)
    requires ':' !in lead && ':' !in seg
    requires line == lead + (seg + ([':'] + rest))
    ensures IndexOf(line, ':') == |lead| + |seg|
  {
    var tail := [':'] + rest;
    ConcatAssoc(lead, seg, tail);
    assert ':' !in lead + seg;
    assert IndexOf(tail, ':') == 0;
    IndexOfAppend(lead + seg, tail, ':');
  }

  lemma ChunkPieces(lead: string, seg: string, rest: string, line: string)
    requires line == lead + (seg + ([':'] + rest))
    ensures |lead| + |seg| < |line|
    ensures line[..|lead|] == lead
    ensures line[|lead|..|lead| + |seg|] == seg
    ensures line[|lead| + |seg| + 1..] == rest
  {
    var tail := [':'] + rest;
    assert line[|lead|..] == seg + tail;
    assert (seg + tail)[..|seg|] == seg;
    assert line[|lead| + |seg|..] == tail;
    assert tail[1..] == rest;
  }

  lemma ParamChunkShape(seg: string, p: Param)
    ensures ParamChunk(seg, p) == seg + ([':'] + ("(" + p.objcType + ")" + p.name))
  {
    var t := p.objcType;
    var n := p.name;
    calc {
      ParamChunk(seg, p);
      seg + ":(" + t + ")" + n;
      { assert ":(" == [':'] + "("; }
      seg + ([':'] + "(") + t + ")" + n;
      { ConcatAssoc(seg, [':'] + "(", t); }
      seg + (([':'] + "(") + t) + ")" + n;
      { ConcatAssoc(seg, ([':'] + "(") + t, ")"); }
      seg + (([':'] + "(") + t + ")") + n;
      { ConcatAssoc(seg, ([':'] + "(") + t + ")", n); }
      seg + (([':'] + "(") + t + ")" + n);
      { ConcatAssoc([':'], "(", t); ConcatAssoc([':'], "(" + t, ")"); ConcatAssoc([':'], "(" + t + ")", n); }
      seg + ([':'] + ("(" + t + ")" + n));
    }
  }

  /**
   * Colon alignment: with N >= 1 parameters there are N lines, line i holds
   * segment i, its first colon, and then `(type)name` of parameter i; the
   * first colon of every line sits in the same column as the first line's
   * (the header plus the first segment) unless the segment is longer than
   * that, in which case the line has no padding.
   */
  lemma DeclarationLayout(m: MethodDecl, selector: string)
    requires SelectorFitsParams(m.params, selector) && m.params != []
    requires ':' !in RenderedReturnType(m, selector)
    ensures var lines := DeclarationLines(m, selector);
      var parts := JavaSplit(selector, ':');
      && |lines| == |m.params|
      && forall i :: 0 <= i < |lines| ==>
           var col := ColonColumn(m, selector, i);
           && col < |lines[i]|
           && IndexOf(lines[i], ':') == col
           && lines[i][col - |parts[i]|..col] == parts[i]
           && lines[i][col + 1..] == "(" + m.params[i].objcType + ")" + m.params[i].name
  {
    forall i | 0 <= i < |m.params|
      ensures var lines := DeclarationLines(m, selector);
        var parts := JavaSplit(selector, ':');
        var col := ColonColumn(m, selector, i);
        && col < |lines[i]|
        && IndexOf(lines[i], ':') == col
        && lines[i][col - |parts[i]|..col] == parts[i]
        && lines[i][col + 1..] == "(" + m.params[i].objcType + ")" + m.params[i].name
    {
      LinesBeforeAt(m, selector, |m.params|, i);
      LineLayout(m, selector, i);
    }
  }

  /**
   * When no part contains a line break, the text has exactly the
   * declaration's lines: one per parameter, or one for none.
   */
  lemma DeclarationLineCount(m: MethodDecl, selector: string)
    requires SelectorFitsParams(m.params, selector)
    requires '\n' !in selector && '\n' !in RenderedReturnType(m, selector)
    requires forall k :: 0 <= k < |m.params| ==> '\n' !in m.params[k].objcType && '\n' !in m.params[k].name
    ensures SplitAll(DeclarationText(m, selector), '\n') == DeclarationLines(m, selector)
    ensures Count(DeclarationText(m, selector), '\n') == if m.params == [] then 0 else |m.params| - 1
  {
    var lines := DeclarationLines(m, selector);
    forall k | 0 <= k < |lines| ensures '\n' !in lines[k] {
      if m.params != [] {
        LinesBeforeAt(m, selector, |m.params|, k);
        DeclarationLineLacks(m, selector, k, '\n');
      } else {
        HeaderLacks(m, selector, '\n');
        if '\n' in JavaSplit(selector, ':')[0] {
          JavaSplitPieceInside(selector, ':', 0, '\n');
        }
      }
    }
    SplitAllJoinWith(lines, '\n');
    SplitAllPieces(DeclarationText(m, selector), '\n');
  }

  /** A line holds no char that is absent from the header, the selector and its parameter. */
  lemma DeclarationLineLacks(m: MethodDecl, selector: string, i: nat, c: char)
    requires SelectorFitsParams(m.params, selector) && i < |m.params|
    requires c !in "+- ():" && c !in RenderedReturnType(m, selector) && c !in selector
    requires c !in m.params[i].objcType && c !in m.params[i].name
    ensures c !in DeclarationLine(m, selector, i)
  {
    var parts := JavaSplit(selector, ':');
    var lead := LineLead(m, selector, i);
    var p := m.params[i];
    if c in parts[i] {
      JavaSplitPieceInside(selector, ':', i, c);
    }
    assert c !in lead by {
      if i == 0 {
        HeaderLacks(m, selector, c);
      } else {
        SpacesAreBlank(|Header(m, selector)| + |parts[0]| - |parts[i]|);
      }
    }
    var chunk := ParamChunk(parts[i], p);
    assert chunk == parts[i] + [':', '('] + p.objcType + [')'] + p.name;
    assert c !in chunk;
  }

  /** Every piece of a split is part of the split string. */
  lemma JavaSplitPieceInside(s: string, sep: char, k: nat, c: char)
    requires k < |JavaSplit(s, sep)|
    requires c in JavaSplit(s, sep)[k]
    ensures c in s
  {
    if sep in s {
      var all := SplitAll(s, sep);
      JoinWithSplitAll(s, sep);
      DropTrailingEmptyFacts(all);
      assert JavaSplit(s, sep)[k] == all[k];
      JoinWithContainsPiece(all, sep, k, c);
    }
  }

  lemma {:induction false} JoinWithContainsPiece(parts: seq<string>, sep: char, k: nat, c: char)
    requires k < |parts| && c in parts[k]
    ensures c in JoinWith(parts, sep)
  {
    var i :| 0 <= i < |parts[k]| && parts[k][i] == c;
    if k == 0 {
      assert JoinWith(parts, sep)[i] == c;
    } else {
      JoinWithContainsPiece(parts[1..], sep, k - 1, c);
      var rest := JoinWith(parts[1..], sep);
      var j :| 0 <= j < |rest| && rest[j] == c;
      assert JoinWith(parts, sep)[|parts[0]| + 1 + j] == c;
    }
  }

  /** The example `run` without parameters. */
  lemma RunExample(m: MethodDecl)
    requires !m.modifiers.isStatic && !m.isConstructor && m.returnType == "void" && m.params == []
    ensures DeclarationText(m, "run") == "- (void)run"
  {
    JavaSplitNoColon("run");
  }

  // ---------------------------------------------------------------------
  // Constructors (constructorDeclaration)

  /**
   * The selector of an inner class's constructor: the leading `init` is
   * followed by the declaring class's full name.
   */
  function InnerSelector(selector: string, fullName: string): string
    requires |selector| >= 4
  {
    "init" + fullName + selector[4..]
  }

  function ConstructorSelector(m: MethodDecl, isInner: bool): string
    requires isInner ==> |m.selector| >= 4
  {
    if isInner then InnerSelector(m.selector, m.declaringClassFullName) else m.selector
  }

  method ConstructorDeclaration(m: MethodDecl, isInner: bool) returns (r: string)
    requires m.isConstructor
    requires isInner ==> |m.selector| >= 4
    requires SelectorFitsParams(m.params, ConstructorSelector(m, isInner))
    ensures r == DeclarationText(m, ConstructorSelector(m, isInner))
  {
    var selector := m.selector;
    if isInner {
      selector := "init" + m.declaringClassFullName + selector[4..];
    }
    r := ConstructMethodDeclaration(m, selector);
  }

  /**
   * Rewriting an `init...` selector for an inner class changes only its
   * first segment, which becomes `init` + the class name + the rest of the
   * old first segment; so a selector that fits the parameters still fits.
   */
  lemma InnerSelectorSplit(selector: string, fullName: string, params: seq<Param>)
    requires StartsWith(selector, "init") && ':' !in fullName
    ensures var parts := JavaSplit(selector, ':');
      && |parts| > 0 && StartsWith(parts[0], "init")
      && JavaSplit(InnerSelector(selector, fullName), ':') == ["init" + fullName + parts[0][4..]] + parts[1..]
    ensures SelectorFitsParams(params, selector) ==> SelectorFitsParams(params, InnerSelector(selector, fullName))
  {
    InnerSelectorParts(selector, fullName);
    InnerSelectorEnd(selector, fullName);
  }

  lemma InnerSelectorParts(selector: string, fullName: string)
    requires StartsWith(selector, "init") && ':' !in fullName
    ensures var parts := JavaSplit(selector, ':');
      && |parts| > 0 && StartsWith(parts[0], "init")
      && JavaSplit(InnerSelector(selector, fullName), ':') == ["init" + fullName + parts[0][4..]] + parts[1..]
  {
    var t := selector[4..];
    var inner := InnerSelector(selector, fullName);
    assert selector == "init" + t;
    assert inner == ("init" + fullName) + t;
    if ':' in t {
      var st := SplitAll(t, ':');
      SplitAllPrepend("init", t, ':');
      SplitAllPrepend("init" + fullName, t, ':');
      DropTrailingEmptyCons("init" + st[0], st[1..]);
      DropTrailingEmptyCons("init" + fullName + st[0], st[1..]);
      assert ("init" + st[0])[4..] == st[0];
    } else {
      assert ':' !in selector && ':' !in inner;
    }
  }

  /** The rewritten selector ends with a colon exactly when the old one does. */
  lemma InnerSelectorEnd(selector: string, fullName: string)
    requires StartsWith(selector, "init") && ':' !in fullName
    ensures EndsWith(InnerSelector(selector, fullName), ":") <==> EndsWith(selector, ":")
  {
    var t := selector[4..];
    var inner := InnerSelector(selector, fullName);
    assert selector == "init" + t;
    assert inner == ("init" + fullName) + t;
    if t != [] {
      assert inner[|inner| - 1] == selector[|selector| - 1] == t[|t| - 1];
    } else {
      assert !EndsWith(inner, ":") by {
        assert inner == "init" + fullName;
        if |fullName| > 0 { assert inner[|inner| - 1] == fullName[|fullName| - 1]; }
      }
    }
  }

  // ---------------------------------------------------------------------
  // Annotation constructors (annotationConstructorDeclaration)

  /** Every annotation constructor begins with this text. */
  const AnnotationInit := "- (instancetype)init"

  /**
   * The part for member `i`: `With` for the first member and ` with` for
   * the others, the capitalized property name, `:(type)` and the property
   * name with the `__` suffix.
   */
  function AnnotationMemberText(i: nat, member: AnnotationMember, capitalize: string -> string): string {
    (if i == 0 then "With" else " with") + capitalize(member.propertyName)
      + ":(" + member.objcType + ")" + member.propertyName + "__"
  }

  function AnnotationConstructorText(members: seq<AnnotationMember>, capitalize: string -> string): string {
    if members == [] then AnnotationInit
    else
      AnnotationConstructorText(members[..|members| - 1], capitalize)
        + AnnotationMemberText(|members| - 1, members[|members| - 1], capitalize)
  }

  method AnnotationConstructorDeclaration(members: seq<AnnotationMember>, capitalize: string -> string)
    returns (r: string)
    ensures r == AnnotationConstructorText(members, capitalize)
  {
    var sb := AnnotationInit;
    for i := 0 to |members|
      invariant sb == AnnotationConstructorText(members[..i], capitalize)
    {
      ghost var before := sb;
      if i == 0 {
        sb := sb + "With";
      } else {
        sb := sb + " with";
      }
      var member := members[i];
      var name := member.propertyName;
      sb := sb + capitalize(name);
      sb := sb + ":(";
      sb := sb + member.objcType;
      sb := sb + ")";
      sb := sb + name;
      sb := sb + "__";
      assert sb == before + AnnotationMemberText(i, member, capitalize);
      assert members[..i + 1][..i] == members[..i];
    }
    assert members[..|members|] == members;
    r := sb;
  }

  /**
   * The constructor always starts `- (instancetype)init`, is exactly that
   * with no members, and every member adds its part after the earlier ones.
   */
  lemma {:induction false} AnnotationConstructorPrefix(members: seq<AnnotationMember>, capitalize: string -> string)
    ensures StartsWith(AnnotationConstructorText(members, capitalize), AnnotationInit)
    ensures members == [] ==> AnnotationConstructorText(members, capitalize) == AnnotationInit
  {
    if members != [] {
      var init := members[..|members| - 1];
      AnnotationConstructorPrefix(init, capitalize);
      var prev := AnnotationConstructorText(init, capitalize);
      var piece := AnnotationMemberText(|members| - 1, members[|members| - 1], capitalize);
      assert (prev + piece)[..|AnnotationInit|] == prev[..|AnnotationInit|];
    }
  }

  /** Member `i` has exactly one colon when its name, its capitalized name and its type have none. */
  lemma MemberTextColon(i: nat, member: AnnotationMember, capitalize: string -> string)
    requires ':' !in member.propertyName && ':' !in member.objcType && ':' !in capitalize(member.propertyName)
    ensures Count(AnnotationMemberText(i, member, capitalize), ':') == 1
  {
    var w := if i == 0 then "With" else " with";
    var c := capitalize(member.propertyName);
    var t := member.objcType;
    var n := member.propertyName;
    var tail := ")" + n + "__";
    assert AnnotationMemberText(i, member, capitalize) == (w + c) + ([':'] + ("(" + t + tail));
    assert ':' !in w + c;
    assert ':' !in "(" + t + tail;
    CountAppend(w + c, [':'] + ("(" + t + tail), ':');
    CountAppend([':'], "(" + t + tail, ':');
    CountAbsent(w + c, ':');
    CountAbsent("(" + t + tail, ':');
  }

  /** Without colons in names and types, the constructor has one colon per member. */
  lemma {:induction false} AnnotationConstructorColons(members: seq<AnnotationMember>, capitalize: string -> string)
    requires forall k :: 0 <= k < |members| ==>
      ':' !in members[k].propertyName && ':' !in members[k].objcType
      && ':' !in capitalize(members[k].propertyName)
    ensures Count(AnnotationConstructorText(members, capitalize), ':') == |members|
  {
    if members == [] {
      assert ':' !in AnnotationInit;
      CountAbsent(AnnotationInit, ':');
    } else {
      var init := members[..|members| - 1];
      var last := members[|members| - 1];
      assert forall k :: 0 <= k < |init| ==> init[k] == members[k];
      AnnotationConstructorColons(init, capitalize);
      MemberTextColon(|members| - 1, last, capitalize);
      CountAppend(AnnotationConstructorText(init, capitalize),
                  AnnotationMemberText(|members| - 1, last, capitalize), ':');
    }
  }

  // ---------------------------------------------------------------------
  // C functions (getFunctionSignature)

  /**
   * A type followed by the space that separates it from a name, unless it
   * already ends in `*` (`endsWith("*")` is a test of the last char).
   */
  function SpacedType(t: string): string {
    if t != [] && t[|t| - 1] == '*' then t else t + " "
  }

  /**
   * A spaced type starts with the type and ends in `*` or a space, so a name
   * appended to it never runs into the type; a space is added exactly when
   * the type does not already end in `*`.
   */
  lemma SpacedTypeShape(t: string)
    ensures var r := SpacedType(t);
      && |r| > 0 && StartsWith(r, t)
      && (r[|r| - 1] == '*' || r[|r| - 1] == ' ')
      && (|r| == |t| <==> EndsWith(t, "*"))
  {
  }

  function ParamDeclaration(p: Param): string {
    SpacedType(p.objcType) + p.name
  }

  function ParamDeclarations(params: seq<Param>): (decls: seq<string>)
    ensures |decls| == |params|
  {
    if params == [] then []
    else ParamDeclarations(params[..|params| - 1]) + [ParamDeclaration(params[|params| - 1])]
  }

  lemma {:induction false} ParamDeclarationsAt(params: seq<Param>, k: nat)
    requires k < |params|
    ensures ParamDeclarations(params)[k] == ParamDeclaration(params[k])
  {
    if k < |params| - 1 {
      ParamDeclarationsAt(params[..|params| - 1], k);
    }
  }

  /** A character in neither the type nor the name of a parameter is not in its declaration. */
  lemma ParamDeclarationLacks(p: Param, c: char)
    requires c != ' ' && c !in p.objcType && c !in p.name
    ensures c !in ParamDeclaration(p)
  {
    var t := SpacedType(p.objcType);
    assert t == p.objcType || t == p.objcType + " ";
    assert c !in t;
  }

  function FunctionSignatureText(f: FunctionDecl): string {
    SpacedType(f.returnType) + f.name + "(" + Join(ParamDeclarations(f.params), ", ") + ")"
  }

  method GetFunctionSignature(f: FunctionDecl) returns (r: string)
    ensures r == FunctionSignatureText(f)
  {
    var returnType := SpacedType(f.returnType);
    var sb := returnType + f.name + "(";
    ghost var head := sb;
    ghost var printed := "";
    assert sb == head + printed;
    var i := 0;
    while i < |f.params|
      invariant 0 <= i <= |f.params|
      invariant sb == head + printed
      invariant printed == Join(ParamDeclarations(f.params[..i]), ", ") + (if 0 < i < |f.params| then ", " else "")
    {
      var param := f.params[i];
      var paramType := SpacedType(param.objcType);
      var d := paramType + param.name;
      ParamStep(f.params, i, printed);
      ConcatAssoc(head, printed, d);
      sb := sb + d;
      printed := printed + d;
      i := i + 1;
      if i < |f.params| {
        ConcatAssoc(head, printed, ", ");
        sb := sb + ", ";
        printed := printed + ", ";
      } else {
        ConcatEmpty(printed);
      }
    }
    assert f.params[..i] == f.params;
    sb := sb + ")";
    r := sb;
  }

  /** One more parameter declaration after the ones so far and their separator. */
  lemma ParamStep(params: seq<Param>, i: nat, printed: string)
    requires i < |params|
    requires printed == Join(ParamDeclarations(params[..i]), ", ") + (if 0 < i then ", " else "")
    ensures printed + ParamDeclaration(params[i]) == Join(ParamDeclarations(params[..i + 1]), ", ")
  {
    var d := ParamDeclaration(params[i]);
    var done := ParamDeclarations(params[..i]);
    assert ParamDeclarations(params[..i + 1]) == done + [d] by {
      assert params[..i + 1][..i] == params[..i];
    }
    JoinSnoc(done, ", ", d);
    if i == 0 {
      assert printed == "";
      assert "" + d == d;
    }
  }

  /**
   * Parameters are separated by exactly one `", "`: without commas in the
   * types and names, the parameter list has one comma fewer than there are
   * parameters.
   */
  lemma FunctionSignatureCommas(f: FunctionDecl)
    requires forall k :: 0 <= k < |f.params| ==> ',' !in f.params[k].objcType && ',' !in f.params[k].name
    ensures Count(Join(ParamDeclarations(f.params), ", "), ',') == if f.params == [] then 0 else |f.params| - 1
  {
    var decls := ParamDeclarations(f.params);
    forall k | 0 <= k < |decls| ensures ',' !in decls[k] {
      ParamDeclarationsAt(f.params, k);
      ParamDeclarationLacks(f.params[k], ',');
    }
    JoinCount(decls, ", ", ',');
    assert Count(", ", ',') == 1;
  }
}
