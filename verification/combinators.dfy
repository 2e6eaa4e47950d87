/**
 The nom combinators the statement parsers are assembled from, each
 specialised to the way the parsers use it. A parser takes the remaining
 input and either yields a value together with the input it left unconsumed,
 or fails. As in nom, a failure is either a recoverable `Error` (which lets
 `alt` and `opt` try something else) or `Incomplete`, which the streaming
 `space0` raises when the input runs out while it is still skipping blanks,
 and which `alt` and `opt` pass straight through.
 */
module Combinators {
  import opened Text

  datatype NomErr = Error | Incomplete

  /** What `let (input, v) = p(input)?;` binds on success. */
  datatype Parsed<+T> = Parsed(value: T, rest: string)

  datatype PResult<+T> = Ok(value: T, rest: string) | Err(err: NomErr) {
    predicate IsFailure() {
      Err?
    }

    function PropagateFailure<U>(): PResult<U>
      requires Err?
    {
      Err(err)
    }

    function Extract(): Parsed<T>
      requires Ok?
    {
      Parsed(value, rest)
    }
  }

  /** `tag(t)` (complete): succeeds exactly when the input starts with `t`. */
  function Tag(t: string, s: string): (r: PResult<string>)
    ensures r.Ok? <==> t <= s
    ensures r.Ok? ==> r.value == t && s == t + r.rest
    ensures r.Err? ==> r.err == Error
  {
    if t <= s then
      assert s == t + s[|t|..];
      Ok(t, s[|t|..])
    else Err(Error)
  }

  /** `take_while(char::is_alphanumeric)` (complete): never fails, may match nothing. */
  function Ident(s: string): (r: PResult<string>)
    ensures r.Ok?
    ensures s == r.value + r.rest
    ensures IsIdent(r.value)
    ensures r.rest == "" || !IsAlnum(r.rest[0])
  {
    var n := Span(IsAlnum, s);
    assert s == s[..n] + s[n..];
    Ok(s[..n], s[n..])
  }

  /** `multispace0` (complete): skips spaces, tabs, carriage returns and line feeds. */
  function Multispace0(s: string): (r: PResult<string>)
    ensures r.Ok?
    ensures s == r.value + r.rest
    ensures forall i :: 0 <= i < |r.value| ==> IsMultispace(r.value[i])
    ensures r.rest == "" || !IsMultispace(r.rest[0])
  {
    var n := Span(IsMultispace, s);
    assert s == s[..n] + s[n..];
    Ok(s[..n], s[n..])
  }

  /**
   `space0` (streaming): skips spaces and tabs, but reports `Incomplete`
   when nothing but blanks is left, since more input might extend the run.
   */
  function Space0(s: string): (r: PResult<string>)
    ensures r.Err? <==> AllBlank(s)
    ensures r.Err? ==> r.err == Incomplete
    ensures r.Ok? ==> s == r.value + r.rest && AllBlank(r.value)
    ensures r.Ok? ==> r.rest != "" && !IsSpace(r.rest[0])
  {
    var n := Span(IsSpace, s);
    if n == |s| then Err(Incomplete)
    else
      assert s == s[..n] + s[n..];
      assert !AllBlank(s) by { assert !IsSpace(s[n]); }
      Ok(s[..n], s[n..])
  }

  /** The list separator `tag(",").and(space0)`: a comma and the blanks after it. */
  function Comma(s: string): (r: PResult<(string, string)>)
    ensures r.Err? <==> !("," <= s) || AllBlank(s[1..])
    ensures r.Err? ==> (r.err == Incomplete <==> "," <= s)
    ensures r.Ok? ==> s == "," + r.value.1 + r.rest && r.value.0 == ","
    ensures r.Ok? ==> AllBlank(r.value.1) && r.rest != "" && !IsSpace(r.rest[0])
  {
    if !("," <= s) then Err(Error)
    else
      var after := s[1..];
      assert s == "," + after;
      var spaced := Space0(after);
      if spaced.Err? then
        assert AllBlank(after) && spaced.err == Incomplete;
        Err(Incomplete)
      else
        assert !AllBlank(after);
        Ok((",", spaced.value), spaced.rest)
  }

  /**
   `separated_list0(tag(",").and(space0), take_while(char::is_alphanumeric))`.
   The element parser never fails, so the list always has at least one
   element, possibly the empty string; it ends at the first position not
   followed by a comma.
   */
  function IdentList(s: string): (r: PResult<seq<string>>)
    ensures r.Ok? ==> |r.value| >= 1 && AllIdents(r.value)
    ensures r.Ok? ==> IsSuffix(r.rest, s)
    ensures r.Ok? ==> r.rest == "" || (r.rest[0] != ',' && !IsAlnum(r.rest[0]))
    ensures r.Err? ==> r.err == Incomplete
    decreases |s|
  {
    var item := Ident(s);
    SuffixOfAppend(item.value, item.rest);
    var sep := Comma(item.rest);
    if sep.Err? then
      if sep.err == Error then Ok([item.value], item.rest) else Err(Incomplete)
    else
      var after := sep.rest;
      assert item.rest == ("," + sep.value.1) + after;
      SuffixOfAppend("," + sep.value.1, after);
      SuffixTransitive(after, item.rest, s);
      var tail := IdentList(after);
      if tail.Err? then Err(tail.err)
      else
        SuffixTransitive(tail.rest, after, s);
        Ok([item.value] + tail.value, tail.rest)
  }

  /** `delimited(tag("("), <identifier list>, tag(")"))`. */
  function ParenList(s: string): (r: PResult<seq<string>>)
    ensures r.Ok? ==> "(" <= s && |r.value| >= 1 && AllIdents(r.value)
    ensures r.Ok? ==> IsSuffix(r.rest, s) && |r.rest| < |s| && s[|s| - |r.rest| - 1] == ')'
    ensures !("(" <= s) ==> r == Err(Error)
  {
    var open :- Tag("(", s);
    var items :- IdentList(open.rest);
    var close :- Tag(")", items.rest);
    assert s[|s| - |items.rest|..] == ")" + close.rest;
    Ok(items.value, close.rest)
  }

  /** `delimited(multispace0, take_while(char::is_alphanumeric), multispace0)`. */
  function PaddedIdent(s: string): (r: PResult<string>)
    ensures r.Ok? && IsIdent(r.value)
    ensures IsSuffix(r.rest, s)
    ensures r.rest == "" || !IsMultispace(r.rest[0])
  {
    var lead := Multispace0(s);
    var name := Ident(lead.rest);
    var trail := Multispace0(name.rest);
    SuffixOfAppend(lead.value, lead.rest);
    SuffixOfAppend(name.value, name.rest);
    SuffixOfAppend(trail.value, trail.rest);
    SuffixTransitive(name.rest, lead.rest, s);
    SuffixTransitive(trail.rest, name.rest, s);
    Ok(name.value, trail.rest)
  }

  /** `alt((p, q))` on the outcomes of its two branches: only an `Error` falls through. */
  function OrElse<T>(first: PResult<T>, second: PResult<T>): (r: PResult<T>)
    ensures first.Ok? ==> r == first
    ensures first == Err(Incomplete) ==> r == Err(Incomplete)
    ensures first == Err(Error) ==> r == second
  {
    if first == Err(Error) then second else first
  }

  /** `opt(p)` applied at input `s`: an `Error` becomes a successful `None` that consumes nothing. */
  function Opt<T>(s: string, attempt: PResult<T>): (r: PResult<Option<T>>)
    ensures attempt.Ok? ==> r == Ok(Some(attempt.value), attempt.rest)
    ensures attempt == Err(Error) ==> r == Ok(None, s)
    ensures attempt == Err(Incomplete) ==> r == Err(Incomplete)
  {
    match attempt
    case Ok(v, rest) => Ok(Some(v), rest)
    case Err(Error) => Ok(None, s)
    case Err(Incomplete) => Err(Incomplete)
  }
}
