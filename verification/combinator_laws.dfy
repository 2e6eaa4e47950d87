/**
 How the combinators behave on text of a known shape: each lemma says what a
 combinator returns when the input is a value followed by what may follow it.
 Together they give the round trip for printed identifier lists.
 */
module CombinatorLaws {
  import opened Text
  import opened Combinators

  /** An identifier followed by a non-alphanumeric character (or nothing) is taken whole. */
  lemma IdentOf(name: string, rest: string)
    requires IsIdent(name)
    requires rest == "" || !IsAlnum(rest[0])
    ensures Ident(name + rest) == Ok(name, rest)
  {
    SpanCrosses(IsAlnum, name, rest);
    assert (name + rest)[..|name|] == name;
    assert (name + rest)[|name|..] == rest;
  }

  /** `multispace0` takes exactly the whitespace in front of a non-whitespace character. */
  lemma Multispace0Of(blank: string, rest: string)
    requires forall i :: 0 <= i < |blank| ==> IsMultispace(blank[i])
    requires rest == "" || !IsMultispace(rest[0])
    ensures Multispace0(blank + rest) == Ok(blank, rest)
  {
    SpanCrosses(IsMultispace, blank, rest);
    assert (blank + rest)[..|blank|] == blank;
    assert (blank + rest)[|blank|..] == rest;
  }

  /** The list separator takes a comma and exactly the blanks after it. */
  lemma CommaOf(blank: string, rest: string)
    requires AllBlank(blank)
    requires rest != "" && !IsSpace(rest[0])
    ensures Comma("," + blank + rest) == Ok((",", blank), rest)
  {
    SpanCrosses(IsSpace, blank, rest);
    var s := "," + blank + rest;
    assert s[1..] == blank + rest;
    assert (blank + rest)[..|blank|] == blank;
    assert (blank + rest)[|blank|..] == rest;
  }

  /** A list can only end at a character that is neither part of an identifier nor a comma. */
  predicate ListStop(rest: string) {
    rest == "" || (!IsAlnum(rest[0]) && rest[0] != ',')
  }

  lemma IdentListLast(s: string)
    requires Comma(Ident(s).rest) == Err(Error)
    ensures IdentList(s) == Ok([Ident(s).value], Ident(s).rest)
  {
  }

  lemma IdentListMore(s: string, item: string, r1: string, blank: string, r2: string, items: seq<string>, rest: string)
    requires Ident(s) == Ok(item, r1)
    requires Comma(r1) == Ok((",", blank), r2)
    requires IdentList(r2) == Ok(items, rest)
    ensures IdentList(s) == Ok([item] + items, rest)
  {
  }

  /** What follows a separator inside a joined list starts with a non-blank. */
  lemma JoinedTailStart(items: seq<string>, blank: string, rest: string)
    requires |items| >= 1 && AllIdents(items)
    requires items[0] != "" || |items| > 1 || (rest != "" && !IsSpace(rest[0]))
    ensures Join(items, "," + blank) + rest != ""
    ensures !IsSpace((Join(items, "," + blank) + rest)[0])
  {
    var t := Join(items, "," + blank) + rest;
    if |items| > 1 {
      assert t == items[0] + ("," + blank + Join(items[1..], "," + blank) + rest);
      if items[0] != "" {
        assert t[0] == items[0][0] && IsAlnum(items[0][0]);
      } else {
        assert t[0] == ',';
      }
    } else if items[0] != "" {
      assert t == items[0] + rest;
      assert t[0] == items[0][0] && IsAlnum(items[0][0]);
    } else {
      assert t == rest;
    }
  }

  lemma IdentListJoinSingle(item: string, rest: string)
    requires IsIdent(item) && ListStop(rest)
    ensures IdentList(item + rest) == Ok([item], rest)
  {
    IdentOf(item, rest);
    assert !("," <= rest);
    IdentListLast(item + rest);
  }

  lemma AllIdentsTail(items: seq<string>)
    requires |items| >= 1 && AllIdents(items)
    ensures AllIdents(items[1..])
  {
    forall k | 0 <= k < |items| - 1 ensures IsIdent(items[1..][k]) {
      assert items[1..][k] == items[k + 1];
    }
  }

  lemma JoinUncons(items: seq<string>, sep: string, rest: string)
    requires |items| >= 2
    ensures Join(items, sep) + rest == items[0] + (sep + (Join(items[1..], sep) + rest))
    ensures [items[0]] + items[1..] == items
  {
  }

  lemma IdentHeadOfJoin(items: seq<string>, blank: string, rest: string)
    requires |items| >= 2 && AllIdents(items)
    ensures Ident(Join(items, "," + blank) + rest)
         == Ok(items[0], "," + blank + (Join(items[1..], "," + blank) + rest))
  {
    var sep := "," + blank;
    var tail := Join(items[1..], sep) + rest;
    JoinUncons(items, sep, rest);
    assert IsIdent(items[0]);
    FirstOfAppend(sep, tail);
    IdentOf(items[0], sep + tail);
  }

  lemma CommaOfJoinTail(items: seq<string>, blank: string, rest: string)
    requires |items| >= 2 && AllIdents(items) && AllBlank(blank)
    requires items[|items| - 1] != "" || (rest != "" && !IsSpace(rest[0]))
    ensures Comma("," + blank + (Join(items[1..], "," + blank) + rest))
         == Ok((",", blank), Join(items[1..], "," + blank) + rest)
  {
    AllIdentsTail(items);
    JoinedTailStart(items[1..], blank, rest);
    CommaOf(blank, Join(items[1..], "," + blank) + rest);
  }

  lemma IdentListJoinStep(items: seq<string>, blank: string, rest: string)
    requires |items| >= 2 && AllIdents(items) && AllBlank(blank)
    requires items[|items| - 1] != "" || (rest != "" && !IsSpace(rest[0]))
    requires IdentList(Join(items[1..], "," + blank) + rest) == Ok(items[1..], rest)
    ensures IdentList(Join(items, "," + blank) + rest) == Ok(items, rest)
  {
    var sep := "," + blank;
    var s := Join(items, sep) + rest;
    var tail := Join(items[1..], sep) + rest;
    IdentHeadOfJoin(items, blank, rest);
    CommaOfJoinTail(items, blank, rest);
    IdentListMore(s, items[0], sep + tail, blank, tail, items[1..], rest);
    JoinUncons(items, sep, rest);
  }

  /**
   Identifiers joined by a comma and a fixed run of blanks parse back to the
   same list. When the last of several identifiers is empty, the blanks
   before it must be followed by something that is not a blank, or `space0`
   would run into the end of the input or swallow the blanks after the list.
   */
  lemma {:induction false} IdentListOfJoin(items: seq<string>, blank: string, rest: string)
    requires |items| >= 1 && AllIdents(items) && AllBlank(blank)
    requires ListStop(rest)
    requires |items| == 1 || items[|items| - 1] != "" || (rest != "" && !IsSpace(rest[0]))
    ensures IdentList(Join(items, "," + blank) + rest) == Ok(items, rest)
  {
    if |items| == 1 {
      IdentListJoinSingle(items[0], rest);
      assert items == [items[0]];
    } else {
      var later := items[1..];
      AllIdentsTail(items);
      assert later[|later| - 1] == items[|items| - 1];
      IdentListOfJoin(later, blank, rest);
      IdentListJoinStep(items, blank, rest);
    }
  }

  lemma AppendAssoc(a: string, b: string, c: string)
    ensures a + b + c == a + (b + c)
  {
  }

  lemma FirstOfAppend(a: string, b: string)
    requires a != ""
    ensures (a + b)[0] == a[0]
  {
  }

  lemma AppendEmpty(a: string)
    ensures a + "" == a && "" + a == a
  {
  }

  /** `tag(t)` in front of `t` takes exactly `t`. */
  lemma TagOf(t: string, rest: string)
    ensures Tag(t, t + rest) == Ok(t, rest)
  {
    assert t <= t + rest;
    assert (t + rest)[|t|..] == rest;
  }

  lemma ParenListSteps(inner: string, items: seq<string>, after: string)
    requires IdentList(inner) == Ok(items, ")" + after)
    ensures ParenList("(" + inner) == Ok(items, after)
  {
    TagOf("(", inner);
    TagOf(")", after);
  }

  /** A parenthesised list printed with `", "` parses back to the same list. */
  lemma ParenListOfJoin(items: seq<string>, after: string)
    requires |items| >= 1 && AllIdents(items)
    ensures ParenList("(" + Join(items, ", ") + ")" + after) == Ok(items, after)
  {
    assert AllBlank(" ");
    assert ", " == "," + " ";
    IdentListOfJoin(items, " ", ")" + after);
    ParenListSteps(Join(items, ", ") + (")" + after), items, after);
    AppendAssoc("(" + Join(items, ", "), ")", after);
    AppendAssoc("(", Join(items, ", "), ")" + after);
  }

  lemma PaddedIdentSteps(s: string, lead: string, r1: string, name: string, r2: string, trail: string, after: string)
    requires Multispace0(s) == Ok(lead, r1)
    requires Ident(r1) == Ok(name, r2)
    requires Multispace0(r2) == Ok(trail, after)
    ensures PaddedIdent(s) == Ok(name, after)
  {
  }

  lemma PaddedIdentOfEmpty(gap: string, after: string)
    requires forall i :: 0 <= i < |gap| ==> IsMultispace(gap[i])
    requires after != "" && !IsAlnum(after[0]) && !IsMultispace(after[0])
    ensures PaddedIdent(gap + after) == Ok("", after)
  {
    AppendEmpty(after);
    Multispace0Of(gap, after);
    IdentOf("", after);
    Multispace0Of("", after);
    PaddedIdentSteps(gap + after, gap, after, "", after, "", after);
  }

  lemma PaddedIdentOfName(name: string, gap: string, after: string)
    requires IsIdent(name) && name != ""
    requires forall i :: 0 <= i < |gap| ==> IsMultispace(gap[i])
    requires after != "" && !IsAlnum(after[0]) && !IsMultispace(after[0])
    ensures PaddedIdent(name + (gap + after)) == Ok(name, after)
  {
    var s := name + (gap + after);
    FirstOfAppend(name, gap + after);
    if gap != "" {
      FirstOfAppend(gap, after);
      assert IsMultispace(gap[0]);
      assert !IsAlnum((gap + after)[0]);
    } else {
      AppendEmpty(after);
      assert gap + after == after;
    }
    AppendEmpty(s);
    Multispace0Of("", s);
    IdentOf(name, gap + after);
    Multispace0Of(gap, after);
    PaddedIdentSteps(s, "", s, name, gap + after, gap, after);
  }

  /** A padded identifier in front of something that can follow it. */
  lemma PaddedIdentOf(name: string, gap: string, after: string)
    requires IsIdent(name)
    requires forall i :: 0 <= i < |gap| ==> IsMultispace(gap[i])
    requires after != "" && !IsAlnum(after[0]) && !IsMultispace(after[0])
    ensures PaddedIdent(name + gap + after) == Ok(name, after)
  {
    AppendAssoc(name, gap, after);
    if name == "" {
      AppendEmpty(gap + after);
      PaddedIdentOfEmpty(gap, after);
    } else {
      PaddedIdentOfName(name, gap, after);
    }
  }

  /**
   A name with whitespace on both sides parses to that name, with the text
   after the trailing whitespace left over. What follows must not extend the
   name: it may start with a letter or digit only when whitespace separates
   it from a nonempty name.
   */
  lemma PaddedIdentBetween(lead: string, name: string, gap: string, after: string)
    requires IsIdent(name)
    requires forall i :: 0 <= i < |lead| ==> IsMultispace(lead[i])
    requires forall i :: 0 <= i < |gap| ==> IsMultispace(gap[i])
    requires after == "" || !IsMultispace(after[0])
    requires after == "" || !IsAlnum(after[0]) || (name != "" && gap != "")
    ensures PaddedIdent(lead + name + gap + after) == Ok(name, after)
  {
    AppendEmpty(after);
    if name == "" {
      var blank := lead + gap;
      assert lead + name + gap + after == blank + after;
      assert forall i :: 0 <= i < |blank| ==> IsMultispace(blank[i]) by {
        assert forall i :: |lead| <= i < |blank| ==> blank[i] == gap[i - |lead|];
      }
      Multispace0Of(blank, after);
      IdentOf("", after);
      Multispace0Of("", after);
      PaddedIdentSteps(blank + after, blank, after, "", after, "", after);
    } else {
      var rest := name + (gap + after);
      assert lead + name + gap + after == lead + rest;
      FirstOfAppend(name, gap + after);
      Multispace0Of(lead, rest);
      if gap != "" {
        FirstOfAppend(gap, after);
        assert IsMultispace(gap[0]);
      } else {
        assert gap + after == after;
      }
      IdentOf(name, gap + after);
      Multispace0Of(gap, after);
      PaddedIdentSteps(lead + rest, lead, rest, name, gap + after, gap, after);
    }
  }
}
