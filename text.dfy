/**
 * The parts of java.lang.String and java.lang.StringBuilder that the
 * generator relies on, stated over `string` (= `seq<char>`), together with
 * the facts about them that the rendering proofs need.
 */
module Text {

  /** `n` spaces; the superclass's `pad(n)`. A negative count gives none. */
  function Spaces(n: int): (r: string)
    ensures |r| == if n < 0 then 0 else n
  {
    if n <= 0 then "" else Spaces(n - 1) + " "
  }

  lemma {:induction false} SpacesAreBlank(n: int)
    ensures forall i :: 0 <= i < |Spaces(n)| ==> Spaces(n)[i] == ' '
    ensures ':' !in Spaces(n) && '\n' !in Spaces(n)
  {
    if n > 0 {
      SpacesAreBlank(n - 1);
    }
  }

  predicate StartsWith(s: string, prefix: string) {
    |prefix| <= |s| && s[..|prefix|] == prefix
  }

  predicate EndsWith(s: string, suffix: string) {
    |suffix| <= |s| && s[|s| - |suffix|..] == suffix
  }

  /** Number of occurrences of `c` in `s`. */
  function Count(s: string, c: char): nat {
    if s == [] then 0 else (if s[0] == c then 1 else 0) + Count(s[1..], c)
  }

  lemma {:induction false} CountAppend(a: string, b: string, c: char)
    ensures Count(a + b, c) == Count(a, c) + Count(b, c)
  {
    if a != [] {
      assert (a + b)[0] == a[0] && (a + b)[1..] == a[1..] + b;
      CountAppend(a[1..], b, c);
    } else {
      assert a + b == b;
    }
  }

  lemma {:induction false} CountAbsent(s: string, c: char)
    requires c !in s
    ensures Count(s, c) == 0
  {
    if s != [] {
      CountAbsent(s[1..], c);
    }
  }

  /** Index of the first `c` in `s`; |s| when there is none. */
  function IndexOf(s: string, c: char): (k: nat)
    ensures k <= |s|
    ensures k < |s| ==> s[k] == c
    ensures c !in s[..k]
  {
    if s == [] || s[0] == c then 0 else 1 + IndexOf(s[1..], c)
  }

  lemma {:induction false} IndexOfAppend(a: string, b: string, c: char)
    requires c !in a
    ensures IndexOf(a + b, c) == |a| + IndexOf(b, c)
  {
    if a == [] {
      assert a + b == b;
    } else {
      assert (a + b)[0] == a[0] && (a + b)[1..] == a[1..] + b;
      IndexOfAppend(a[1..], b, c);
    }
  }

  // ---------------------------------------------------------------------
  // String.trim(): drops every leading and trailing char <= ' '.

  /** Index of the first char of `s` that `trim` keeps (|s| when none). */
  function TrimStart(s: string): (k: nat)
    ensures k <= |s|
    ensures forall i :: 0 <= i < k ==> s[i] <= ' '
    ensures k < |s| ==> s[k] > ' '
  {
    if s == [] || s[0] > ' ' then 0 else 1 + TrimStart(s[1..])
  }

  /** One past the last char of `s[from..]` that `trim` keeps. */
  function TrimEnd(s: string, from: nat): (k: nat)
    requires from <= |s|
    ensures from <= k <= |s|
    ensures forall i :: k <= i < |s| ==> s[i] <= ' '
    ensures from < k ==> s[k - 1] > ' '
    decreases |s|
  {
    if |s| == from || s[|s| - 1] > ' ' then |s| else TrimEnd(s[..|s| - 1], from)
  }

  function Trim(s: string): string {
    var a := TrimStart(s);
    s[a..TrimEnd(s, a)]
  }

  /** A trimmed string is empty or starts and ends with a char above ' '. */
  predicate IsTrimmed(s: string) {
    s == [] || (s[0] > ' ' && s[|s| - 1] > ' ')
  }

  lemma TrimIsTrimmed(s: string)
    ensures IsTrimmed(Trim(s))
    ensures Trim(s) == [] <==> forall i :: 0 <= i < |s| ==> s[i] <= ' '
  {
    var a := TrimStart(s);
    var b := TrimEnd(s, a);
    if a == b {
      forall i | 0 <= i < |s| ensures s[i] <= ' ' {
        if i >= a { assert i >= b; }
      }
    }
  }

  lemma {:induction false} TrimmedIsFixed(s: string)
    requires IsTrimmed(s)
    ensures Trim(s) == s
  {
    assert TrimStart(s) == 0;
    assert TrimEnd(s, 0) == |s| by {
      if s != [] { assert s[|s| - 1] > ' '; }
    }
  }

  /** `trim` is idempotent. */
  lemma TrimIdempotent(s: string)
    ensures Trim(Trim(s)) == Trim(s)
  {
    TrimIsTrimmed(s);
    TrimmedIsFixed(Trim(s));
  }

  /** Trimming removes only chars at or below the space, so it keeps every visible char. */
  lemma TrimKeepsVisible(s: string, c: char)
    requires c > ' '
    ensures Count(Trim(s), c) == Count(s, c)
  {
    var a := TrimStart(s);
    var b := TrimEnd(s, a);
    assert c !in s[..a] by {
      forall i | 0 <= i < a ensures s[..a][i] != c { assert s[..a][i] == s[i]; }
    }
    assert c !in s[b..] by {
      forall i | 0 <= i < |s| - b ensures s[b..][i] != c { assert s[b..][i] == s[b + i]; }
    }
    CountMiddle(s, a, b, c);
  }

  /** When `c` is neither before `a` nor from `b` on, the slice `s[a..b]` holds every `c` of `s`. */
  lemma CountMiddle(s: string, a: nat, b: nat, c: char)
    requires a <= b <= |s|
    requires c !in s[..a] && c !in s[b..]
    ensures Count(s[a..b], c) == Count(s, c)
  {
    assert s == s[..a] + s[a..b] + s[b..];
    CountAppend(s[..a] + s[a..b], s[b..], c);
    CountAppend(s[..a], s[a..b], c);
    CountAbsent(s[..a], c);
    CountAbsent(s[b..], c);
  }

  // ---------------------------------------------------------------------
  // Two-char sequences: "/*" opens a C comment, "*/" closes one.

  /** `s` never holds `x` immediately followed by `y`. */
  predicate NoPair(s: string, x: char, y: char) {
    forall i :: 0 <= i < |s| - 1 ==> !(s[i] == x && s[i + 1] == y)
  }

  predicate NoCommentOpen(s: string) {
    NoPair(s, '/', '*')
  }

  predicate NoCommentClose(s: string) {
    NoPair(s, '*', '/')
  }

  lemma NoPairSlice(s: string, a: nat, b: nat, x: char, y: char)
    requires a <= b <= |s|
    requires NoPair(s, x, y)
    ensures NoPair(s[a..b], x, y)
  {
    forall i | 0 <= i < b - a - 1 ensures !(s[a..b][i] == x && s[a..b][i + 1] == y) {
      assert s[a..b][i] == s[a + i] && s[a..b][i + 1] == s[a + i + 1];
    }
  }

  lemma NoPairTrim(s: string, x: char, y: char)
    requires NoPair(s, x, y)
    ensures NoPair(Trim(s), x, y)
  {
    var a := TrimStart(s);
    NoPairSlice(s, a, TrimEnd(s, a), x, y);
  }

  /** Gluing two strings creates no pair unless the seam does. */
  lemma NoPairConcat(a: string, b: string, x: char, y: char)
    requires NoPair(a, x, y) && NoPair(b, x, y)
    requires a == [] || b == [] || !(a[|a| - 1] == x && b[0] == y)
    ensures NoPair(a + b, x, y)
  {
    var s := a + b;
    forall i | 0 <= i < |s| - 1 ensures !(s[i] == x && s[i + 1] == y) {
      if i + 1 < |a| {
        assert s[i] == a[i] && s[i + 1] == a[i + 1];
      } else if i >= |a| {
        assert s[i] == b[i - |a|] && s[i + 1] == b[i + 1 - |a|];
      } else {
        assert s[i] == a[|a| - 1] && s[i + 1] == b[0];
      }
    }
  }

  // ---------------------------------------------------------------------
  // String.replace(target, replacement) with a non-empty literal target:
  // left to right, non-overlapping.

  function ReplaceAll(s: string, target: string, replacement: string): string
    requires target != []
    decreases |s|
  {
    if |s| < |target| then s
    else if s[..|target|] == target then replacement + ReplaceAll(s[|target|..], target, replacement)
    else [s[0]] + ReplaceAll(s[1..], target, replacement)
  }

  /** `s.replace("@", "@@")`. */
  function DoubleAt(s: string): string {
    ReplaceAll(s, "@", "@@")
  }

  /**
   * Doubling every `@` doubles their count, creates no pair of other chars
   * (so no comment opener or closer), and keeps the string empty or not and
   * its first char.
   */
  lemma {:induction false} DoubleAtFacts(s: string, x: char, y: char)
    requires x != '@' && y != '@'
    ensures Count(DoubleAt(s), '@') == 2 * Count(s, '@')
    ensures NoPair(s, x, y) ==> NoPair(DoubleAt(s), x, y)
    ensures DoubleAt(s) == [] <==> s == []
    ensures s != [] ==> DoubleAt(s)[0] == s[0]
    decreases |s|
  {
    if s != [] {
      var rest := DoubleAt(s[1..]);
      DoubleAtFacts(s[1..], x, y);
      var head := if s[0] == '@' then "@@" else [s[0]];
      assert DoubleAt(s) == head + rest;
      CountAppend(head, rest, '@');
      assert Count(s, '@') == (if s[0] == '@' then 1 else 0) + Count(s[1..], '@');
      if NoPair(s, x, y) {
        NoPairSlice(s, 1, |s|, x, y);
        assert NoPair(head, x, y);
        if rest != [] && head[|head| - 1] == x {
          assert s[0] == x && s[1..] != [];
          assert s[1] != y;
          assert rest[0] != y;
        }
        NoPairConcat(head, rest, x, y);
      }
    }
  }

  /** The partner of `DoubleAt`: `replace("@@", "@")` undoes it. */
  function UndoubleAt(s: string): string {
    ReplaceAll(s, "@@", "@")
  }

  lemma {:induction false} UndoubleAtInvertsDoubleAt(s: string)
    ensures UndoubleAt(DoubleAt(s)) == s
    decreases |s|
  {
    if s != [] {
      UndoubleAtInvertsDoubleAt(s[1..]);
      var rest := ReplaceAll(s[1..], "@", "@@");
      if s[0] == '@' {
        assert ReplaceAll(s, "@", "@@") == "@@" + rest;
        assert ("@@" + rest)[2..] == rest;
      } else {
        assert ReplaceAll(s, "@", "@@") == [s[0]] + rest;
        var t := [s[0]] + rest;
        if |t| >= 2 {
          assert t[0] != '@';
          assert t[..2] != "@@";
        }
        assert t[1..] == rest;
      }
    }
  }

  // `s.replace("/*", "/\\*")`: every comment opener gets a backslash.
  function EscapeCommentOpen(s: string): string {
    ReplaceAll(s, "/*", "/\\*")
  }

  /**
   * The escaped text opens no comment, closes none that the text did not
   * close, keeps its `@` count, and keeps the string empty or not and its
   * first char.
   */
  lemma {:induction false} EscapeCommentOpenFacts(s: string)
    ensures NoCommentOpen(EscapeCommentOpen(s))
    ensures NoCommentClose(s) ==> NoCommentClose(EscapeCommentOpen(s))
    ensures Count(EscapeCommentOpen(s), '@') == Count(s, '@')
    ensures EscapeCommentOpen(s) == [] <==> s == []
    ensures s != [] ==> EscapeCommentOpen(s)[0] == s[0]
    decreases |s|
  {
    var r := EscapeCommentOpen(s);
    if |s| < 2 {
      assert r == s;
    } else if s[..2] == "/*" {
      var rest := EscapeCommentOpen(s[2..]);
      EscapeCommentOpenFacts(s[2..]);
      var esc := "/\\*";
      assert r == esc + rest;
      CountAppend(esc, rest, '@');
      assert Count(s, '@') == Count(s[2..], '@') by {
        assert s[1..][1..] == s[2..];
      }
      assert NoPair(esc, '/', '*') && NoPair(esc, '*', '/');
      NoPairConcat(esc, rest, '/', '*');
      if NoCommentClose(s) {
        NoPairSlice(s, 2, |s|, '*', '/');
        if rest != [] {
          assert s[1] == '*' && s[2] == rest[0];
        }
        NoPairConcat(esc, rest, '*', '/');
      }
    } else {
      var rest := EscapeCommentOpen(s[1..]);
      EscapeCommentOpenFacts(s[1..]);
      assert r == [s[0]] + rest;
      CountAppend([s[0]], rest, '@');
      if rest != [] && s[0] == '/' {
        assert s[1] != '*';
        assert rest[0] != '*';
      }
      NoPairConcat([s[0]], rest, '/', '*');
      if NoCommentClose(s) {
        NoPairSlice(s, 1, |s|, '*', '/');
        NoPairConcat([s[0]], rest, '*', '/');
      }
    }
  }

  // ---------------------------------------------------------------------
  // Splitting on a separator char, and joining back.

  /** Every piece between separators, empty ones included. */
  function SplitAll(s: string, sep: char): (parts: seq<string>)
    ensures |parts| >= 1
  {
    if s == [] then [""]
    else if s[0] == sep then [""] + SplitAll(s[1..], sep)
    else
      var rest := SplitAll(s[1..], sep);
      [[s[0]] + rest[0]] + rest[1..]
  }

  /** One more piece than separators, and no piece holds a separator. */
  lemma {:induction false} SplitAllPieces(s: string, sep: char)
    ensures |SplitAll(s, sep)| == Count(s, sep) + 1
    ensures forall k :: 0 <= k < |SplitAll(s, sep)| ==> sep !in SplitAll(s, sep)[k]
  {
    if s != [] {
      SplitAllPieces(s[1..], sep);
    }
  }

  /** Drops the empty strings at the end of `parts`. */
  function DropTrailingEmpty(parts: seq<string>): (r: seq<string>)
    ensures |r| <= |parts|
  {
    if parts != [] && parts[|parts| - 1] == "" then DropTrailingEmpty(parts[..|parts| - 1]) else parts
  }

  /** Only empty pieces are dropped, all of them at the end, and the last piece kept is not empty. */
  lemma {:induction false} DropTrailingEmptyFacts(parts: seq<string>)
    ensures var r := DropTrailingEmpty(parts);
      && r == parts[..|r|]
      && (forall k :: |r| <= k < |parts| ==> parts[k] == "")
      && (r == [] || r[|r| - 1] != "")
  {
    if parts != [] && parts[|parts| - 1] == "" {
      DropTrailingEmptyFacts(parts[..|parts| - 1]);
    }
  }

  /**
   * Java's `s.split(String.valueOf(sep))`: the string itself when the
   * separator does not occur, otherwise every piece with the trailing empty
   * pieces removed.
   */
  function JavaSplit(s: string, sep: char): seq<string> {
    if sep !in s then [s] else DropTrailingEmpty(SplitAll(s, sep))
  }

  /** No piece of a split holds the separator. */
  lemma JavaSplitPieces(s: string, sep: char)
    ensures forall k :: 0 <= k < |JavaSplit(s, sep)| ==> sep !in JavaSplit(s, sep)[k]
  {
    if sep in s {
      SplitAllPieces(s, sep);
      DropTrailingEmptyFacts(SplitAll(s, sep));
      var all := SplitAll(s, sep);
      var r := DropTrailingEmpty(all);
      forall k | 0 <= k < |r| ensures sep !in r[k] {
        assert r[k] == all[k];
      }
    }
  }

  /** The pieces joined back with the separator between them. */
  function JoinWith(parts: seq<string>, sep: char): string
    requires parts != []
  {
    if |parts| == 1 then parts[0] else parts[0] + [sep] + JoinWith(parts[1..], sep)
  }

  lemma {:induction false} JoinWithSnoc(parts: seq<string>, last: string, sep: char)
    requires parts != []
    ensures JoinWith(parts + [last], sep) == JoinWith(parts, sep) + [sep] + last
  {
    if |parts| > 1 {
      assert (parts + [last])[1..] == parts[1..] + [last];
      JoinWithSnoc(parts[1..], last, sep);
    }
  }

  lemma JoinWithStartsWithFirst(parts: seq<string>, sep: char)
    requires parts != []
    ensures StartsWith(JoinWith(parts, sep), parts[0])
  {
  }

  /** Joining pieces whose last is empty ends with the separator. */
  lemma {:induction false} JoinWithEndsWithSep(parts: seq<string>, sep: char)
    requires |parts| >= 2 && parts[|parts| - 1] == ""
    ensures EndsWith(JoinWith(parts, sep), [sep])
  {
    var rest := parts[1..];
    if |rest| >= 2 {
      JoinWithEndsWithSep(rest, sep);
    }
  }

  lemma {:induction false} SplitAllAfter(head: string, sep: char, tail: string)
    requires sep !in head
    ensures SplitAll(head + [sep] + tail, sep) == [head] + SplitAll(tail, sep)
  {
    if head == [] {
      assert head + [sep] + tail == [sep] + tail;
      assert ([sep] + tail)[1..] == tail;
    } else {
      assert (head + [sep] + tail)[1..] == head[1..] + [sep] + tail;
      SplitAllAfter(head[1..], sep, tail);
      assert [head[0]] + head[1..] == head;
    }
  }

  lemma {:induction false} SplitAllAbsent(s: string, sep: char)
    requires sep !in s
    ensures SplitAll(s, sep) == [s]
  {
    if s != [] {
      SplitAllAbsent(s[1..], sep);
      assert [s[0]] + s[1..] == s;
    }
  }

  /** Splitting undoes joining when no piece holds the separator. */
  lemma {:induction false} SplitAllJoinWith(parts: seq<string>, sep: char)
    requires parts != []
    requires forall k :: 0 <= k < |parts| ==> sep !in parts[k]
    ensures SplitAll(JoinWith(parts, sep), sep) == parts
  {
    if |parts| == 1 {
      SplitAllAbsent(parts[0], sep);
    } else {
      SplitAllJoinWith(parts[1..], sep);
      SplitAllAfter(parts[0], sep, JoinWith(parts[1..], sep));
    }
  }

  /** Joining undoes splitting. */
  lemma {:induction false} JoinWithSplitAll(s: string, sep: char)
    ensures JoinWith(SplitAll(s, sep), sep) == s
  {
    if s != [] {
      JoinWithSplitAll(s[1..], sep);
      var rest := SplitAll(s[1..], sep);
      if s[0] == sep {
        assert ([""] + rest)[1..] == rest;
      } else if |rest| > 1 {
        assert ([[s[0]] + rest[0]] + rest[1..])[1..] == rest[1..];
      }
    }
  }

  /** Concatenation of `seg + ":"` over the segments: a selector with one colon per argument. */
  function ColonTerminated(segments: seq<string>): string {
    if segments == [] then "" else segments[0] + ":" + ColonTerminated(segments[1..])
  }

  lemma {:induction false} SplitAllColonTerminated(segments: seq<string>)
    requires forall k :: 0 <= k < |segments| ==> ':' !in segments[k]
    ensures SplitAll(ColonTerminated(segments), ':') == segments + [""]
  {
    if segments != [] {
      SplitAllColonTerminated(segments[1..]);
      SplitAllAfter(segments[0], ':', ColonTerminated(segments[1..]));
      assert segments == [segments[0]] + segments[1..];
    }
  }

  /**
   * `split(":")` of a selector with one non-empty colon-free segment per
   * argument returns exactly those segments: the trailing colon yields no
   * empty last segment.
   */
  lemma JavaSplitSelector(segments: seq<string>)
    requires segments != []
    requires forall k :: 0 <= k < |segments| ==> segments[k] != [] && ':' !in segments[k]
    ensures JavaSplit(ColonTerminated(segments), ':') == segments
  {
    var s := ColonTerminated(segments);
    SplitAllColonTerminated(segments);
    assert ':' in s by {
      assert s == segments[0] + ":" + ColonTerminated(segments[1..]);
      assert s[|segments[0]|] == ':';
    }
    var all := segments + [""];
    assert all[..|all| - 1] == segments;
    assert DropTrailingEmpty(all) == DropTrailingEmpty(segments);
  }

  /** A colon-free selector splits to itself. */
  lemma JavaSplitNoColon(s: string)
    requires ':' !in s
    ensures JavaSplit(s, ':') == [s]
  {
  }

  /** With a non-empty first piece, dropping trailing empties acts on the rest only. */
  lemma {:induction false} DropTrailingEmptyCons(x: string, rest: seq<string>)
    requires x != ""
    ensures DropTrailingEmpty([x] + rest) == [x] + DropTrailingEmpty(rest)
    decreases |rest|
  {
    if rest != [] && rest[|rest| - 1] == "" {
      assert ([x] + rest)[..|rest|] == [x] + rest[..|rest| - 1];
      DropTrailingEmptyCons(x, rest[..|rest| - 1]);
    }
  }

  lemma {:induction false} SplitAllPrepend(head: string, s: string, sep: char)
    requires sep !in head
    ensures SplitAll(head + s, sep) == [head + SplitAll(s, sep)[0]] + SplitAll(s, sep)[1..]
  {
    var x := SplitAll(s, sep);
    if head == [] {
      assert head + s == s && head + x[0] == x[0] && [x[0]] + x[1..] == x;
    } else {
      assert (head + s)[0] == head[0] && (head + s)[1..] == head[1..] + s;
      SplitAllPrepend(head[1..], s, sep);
      assert [head[0]] + (head[1..] + x[0]) == head + x[0];
    }
  }

  // ---------------------------------------------------------------------
  // Joining with a separator string (", "), as an iterator loop does it.

  function Join(items: seq<string>, sep: string): string {
    if items == [] then ""
    else if |items| == 1 then items[0]
    else Join(items[..|items| - 1], sep) + sep + items[|items| - 1]
  }

  lemma JoinSnoc(items: seq<string>, sep: string, x: string)
    ensures Join(items + [x], sep) == if items == [] then x else Join(items, sep) + sep + x
  {
    assert (items + [x])[..|items|] == items;
  }

  /** The partner of `Join`: each item lands in the text, with one separator between neighbours. */
  lemma {:induction false} JoinCount(items: seq<string>, sep: string, c: char)
    requires forall k :: 0 <= k < |items| ==> c !in items[k]
    ensures Count(Join(items, sep), c) == if items == [] then 0 else (|items| - 1) * Count(sep, c)
  {
    if |items| == 1 {
      CountAbsent(items[0], c);
    } else if |items| > 1 {
      var init := items[..|items| - 1];
      JoinCount(init, sep, c);
      CountAppend(Join(init, sep), sep, c);
      CountAppend(Join(init, sep) + sep, items[|items| - 1], c);
      CountAbsent(items[|items| - 1], c);
    }
  }

  lemma ConcatEmpty<T>(a: seq<T>)
    ensures a + [] == a && [] + a == a
  {
  }

  lemma ConcatAssoc<T>(a: seq<T>, b: seq<T>, c: seq<T>)
    ensures a + b + c == a + (b + c)
  {
  }
}
