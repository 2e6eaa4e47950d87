/**
 Character classes and the string helpers the parser and the executor share:
 `take_while` spans, Rust's `join` and `split`, and the first line that
 `BufRead::lines` hands back for a file's content.
 */
module Text {

  datatype Option<+T> = None | Some(value: T)

  /** ASCII stand-in for Rust's `char::is_alphanumeric`. */
  predicate IsAlnum(c: char) {
    ('a' <= c <= 'z') || ('A' <= c <= 'Z') || ('0' <= c <= '9')
  }

  /** The characters `multispace0` skips. */
  predicate IsMultispace(c: char) {
    c == ' ' || c == '\t' || c == '\r' || c == '\n'
  }

  /** The characters `space0` skips. */
  predicate IsSpace(c: char) {
    c == ' ' || c == '\t'
  }

  predicate NotNewline(c: char) {
    c != '\n'
  }

  /** A string the identifier parser can produce: alphanumeric, possibly empty. */
  predicate IsIdent(s: string) {
    forall i :: 0 <= i < |s| ==> IsAlnum(s[i])
  }

  predicate AllIdents(items: seq<string>) {
    forall k :: 0 <= k < |items| ==> IsIdent(items[k])
  }

  predicate AllBlank(s: string) {
    forall i :: 0 <= i < |s| ==> IsSpace(s[i])
  }

  /** `rest` is what is left of `s` after some prefix of it has been consumed. */
  predicate IsSuffix(rest: string, s: string) {
    |rest| <= |s| && s[|s| - |rest|..] == rest
  }

  lemma SuffixOfAppend(consumed: string, rest: string)
    ensures IsSuffix(rest, consumed + rest)
  {
    assert (consumed + rest)[|consumed|..] == rest;
  }

  lemma SuffixTransitive(c: string, b: string, a: string)
    requires IsSuffix(c, b) && IsSuffix(b, a)
    ensures IsSuffix(c, a)
  {
    assert a[|a| - |c|..] == a[|a| - |b|..][|b| - |c|..];
  }

  /** Length of the longest prefix of `s` whose characters all satisfy `p`. */
  function Span(p: char -> bool, s: string): (n: nat)
    ensures n <= |s|
    ensures forall i :: 0 <= i < n ==> p(s[i])
    ensures n < |s| ==> !p(s[n])
  {
    if |s| == 0 || !p(s[0]) then 0 else 1 + Span(p, s[1..])
  }

  /** A span stops at the first character of `a` that fails `p`, whatever follows `a`. */
  lemma {:induction false} SpanStopsInside(p: char -> bool, a: string, b: string)
    requires Span(p, a) < |a|
    ensures Span(p, a + b) == Span(p, a)
  {
    if |a| > 0 && p(a[0]) {
      assert (a + b)[1..] == a[1..] + b;
      SpanStopsInside(p, a[1..], b);
    }
  }

  /** A span that covers all of `a` continues into `b`. */
  lemma {:induction false} SpanCrosses(p: char -> bool, a: string, b: string)
    requires forall i :: 0 <= i < |a| ==> p(a[i])
    ensures Span(p, a + b) == |a| + Span(p, b)
  {
    if |a| > 0 {
      assert (a + b)[1..] == a[1..] + b;
      SpanCrosses(p, a[1..], b);
    } else {
      assert a + b == b;
    }
  }

  /** Rust's `[T]::join(sep)`. */
  function Join(items: seq<string>, sep: string): string {
    if |items| == 0 then ""
    else if |items| == 1 then items[0]
    else items[0] + sep + Join(items[1..], sep)
  }

  /** Rust's `str::split(c)` collected into a vector: `n` separators give `n + 1` pieces. */
  function Split(s: string, c: char): (parts: seq<string>)
    ensures |parts| >= 1
    ensures forall k :: 0 <= k < |parts| ==> c !in parts[k]
  {
    if |s| == 0 then [""]
    else
      var tail := Split(s[1..], c);
      if s[0] == c then [""] + tail
      else [[s[0]] + tail[0]] + tail[1..]
  }

  /** Joining the pieces with the separator gives the string back. */
  lemma {:induction false} JoinSplit(s: string, c: char)
    ensures Join(Split(s, c), [c]) == s
  {
    if |s| > 0 {
      var tail := Split(s[1..], c);
      JoinSplit(s[1..], c);
      if s[0] == c {
        assert ([""] + tail)[1..] == tail;
      } else {
        var parts := [[s[0]] + tail[0]] + tail[1..];
        assert parts[1..] == tail[1..];
        assert |tail| > 1 ==> Join(tail, [c]) == tail[0] + [c] + Join(tail[1..], [c]);
      }
    }
  }

  /** Splitting `a + b` where `a` holds no separator glues `a` onto the first piece of `b`. */
  lemma {:induction false} SplitAfterPlainPrefix(a: string, b: string, c: char)
    requires c !in a
    ensures Split(a + b, c) == [a + Split(b, c)[0]] + Split(b, c)[1..]
  {
    if |a| > 0 {
      assert (a + b)[1..] == a[1..] + b;
      assert a[0] in a;
      SplitAfterPlainPrefix(a[1..], b, c);
      var tail := Split(a[1..] + b, c);
      assert tail == [a[1..] + Split(b, c)[0]] + Split(b, c)[1..];
      assert tail[0] == a[1..] + Split(b, c)[0];
      assert tail[1..] == Split(b, c)[1..];
      assert [a[0]] + (a[1..] + Split(b, c)[0]) == a + Split(b, c)[0];
    } else {
      var parts := Split(b, c);
      assert a + b == b;
      assert a + parts[0] == parts[0];
      assert [parts[0]] + parts[1..] == parts;
    }
  }

  /** Splitting a string that starts with a character other than the separator. */
  lemma SplitCons(x: char, s: string, c: char)
    requires x != c
    ensures Split([x] + s, c) == [[x] + Split(s, c)[0]] + Split(s, c)[1..]
  {
    assert ([x] + s)[1..] == s;
  }

  lemma SplitAroundSep(a: string, b: string, c: char)
    requires |a| > 0 && a[0] == c
    requires Split(a[1..] + [c] + b, c) == Split(a[1..], c) + Split(b, c)
    ensures Split(a + [c] + b, c) == Split(a, c) + Split(b, c)
  {
    assert (a + [c] + b)[1..] == a[1..] + [c] + b;
  }

  lemma GlueFirst(h: string, front: seq<string>, back: seq<string>)
    requires |front| >= 1
    ensures [h + (front + back)[0]] + (front + back)[1..] == ([h + front[0]] + front[1..]) + back
  {
    assert (front + back)[0] == front[0];
    assert (front + back)[1..] == front[1..] + back;
  }

  lemma SplitAroundPlain(x: char, r: string, b: string, c: char)
    requires x != c
    requires Split(r + [c] + b, c) == Split(r, c) + Split(b, c)
    ensures Split([x] + r + [c] + b, c) == Split([x] + r, c) + Split(b, c)
  {
    assert [x] + r + [c] + b == [x] + (r + [c] + b);
    SplitCons(x, r + [c] + b, c);
    SplitCons(x, r, c);
    GlueFirst([x], Split(r, c), Split(b, c));
  }

  /** A separator between `a` and `b` splits them apart: the pieces of `a`, then those of `b`. */
  lemma {:induction false} SplitAround(a: string, b: string, c: char)
    ensures Split(a + [c] + b, c) == Split(a, c) + Split(b, c)
  {
    if |a| == 0 {
      assert a + [c] + b == [c] + b;
      assert ([c] + b)[1..] == b;
    } else {
      SplitAround(a[1..], b, c);
      if a[0] == c {
        SplitAroundSep(a, b, c);
      } else {
        assert a == [a[0]] + a[1..];
        SplitAroundPlain(a[0], a[1..], b, c);
      }
    }
  }

  /** Splitting on the separator used for joining gives the pieces back. */
  lemma {:induction false} SplitJoin(items: seq<string>, c: char)
    requires |items| >= 1
    requires forall k :: 0 <= k < |items| ==> c !in items[k]
    ensures Split(Join(items, [c]), c) == items
  {
    if |items| == 1 {
      SplitAfterPlainPrefix(items[0], "", c);
      assert Split("", c) == [""];
      assert items[0] + "" == items[0];
      assert items == [items[0]];
    } else {
      var tail := Join(items[1..], [c]);
      SplitJoin(items[1..], c);
      assert ([c] + tail)[1..] == tail;
      var after := Split([c] + tail, c);
      assert after == [""] + items[1..];
      assert after[0] == "" && after[1..] == items[1..];
      assert Join(items, [c]) == items[0] + ([c] + tail);
      SplitAfterPlainPrefix(items[0], [c] + tail, c);
      assert items[0] + "" == items[0];
      assert items == [items[0]] + items[1..];
    }
  }

  /** Every character of a comma-joined list of identifiers is alphanumeric or a comma. */
  lemma {:induction false} JoinedIdentsChars(items: seq<string>)
    requires AllIdents(items)
    ensures forall i :: 0 <= i < |Join(items, ",")| ==> IsAlnum(Join(items, ",")[i]) || Join(items, ",")[i] == ','
  {
    if |items| > 1 {
      JoinedIdentsChars(items[1..]);
      var j := Join(items, ",");
      assert j == items[0] + "," + Join(items[1..], ",");
      forall i | 0 <= i < |j|
        ensures IsAlnum(j[i]) || j[i] == ','
      {
        if i < |items[0]| {
          assert j[i] == items[0][i];
        } else if i > |items[0]| {
          assert j[i] == Join(items[1..], ",")[i - |items[0]| - 1];
        }
      }
    }
  }

  predicate EndsWithCR(s: string) {
    |s| > 0 && s[|s| - 1] == '\r'
  }

  /**
   The first item `BufRead::lines` yields: None for an empty file, otherwise
   the text up to the first line feed, with one carriage return dropped only
   when it stands right before that line feed.
   */
  function FirstLine(content: string): (line: Option<string>)
    ensures line.None? <==> content == ""
    ensures line.Some? ==> '\n' !in line.value
    ensures line.Some? ==>
              || ('\n' !in content && line.value == content)
              || (line.value + "\n" <= content && !EndsWithCR(line.value))
              || (line.value + "\r\n" <= content)
  {
    if content == "" then None
    else
      var n := Span(NotNewline, content);
      assert '\n' !in content[..n] by {
        forall i | 0 <= i < n ensures content[..n][i] != '\n' {
          assert NotNewline(content[i]);
        }
      }
      if n < |content| && n > 0 && content[n - 1] == '\r' then
        assert content[..n - 1] + "\r\n" == content[..n + 1];
        Some(content[..n - 1])
      else
        assert n < |content| ==> content[..n] + "\n" == content[..n + 1];
        assert n == |content| ==> content[..n] == content;
        Some(content[..n])
  }

  /** Text after a line feed never changes the first line. */
  lemma FirstLineOfAppended(line: string, tail: string)
    requires '\n' !in line && !EndsWithCR(line)
    ensures FirstLine(line + "\n" + tail) == Some(line)
  {
    var c := line + "\n" + tail;
    assert c == line + ("\n" + tail);
    forall i | 0 <= i < |line| ensures NotNewline(line[i]) {
      assert line[i] in line;
    }
    SpanCrosses(NotNewline, line, "\n" + tail);
    assert c[..|line|] == line;
  }

  /** A file holding a single line without terminator yields that line. */
  lemma FirstLineOfSingle(line: string)
    requires line != "" && '\n' !in line
    ensures FirstLine(line) == Some(line)
  {
  }
}
