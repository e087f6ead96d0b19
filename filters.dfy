/** Filter clauses of a list query and their wire format `field:operator:value`. */
module Filters {
  import opened Wrappers
  import opened Text

  /** The operators the fluent filter chain and the batch `get` use. */
  const Like := "like"
  const Equal := "eq"
  const In := "in"

  datatype Clause = Clause(field: string, operator: string, value: string)

  /** A clause as the server receives it. The value is not escaped. */
  function Render(c: Clause): string
  {
    c.field + ":" + c.operator + ":" + c.value
  }

  /** Reads a rendered clause back: the field runs up to the first colon, the
      operator up to the second, and the value is the rest (colons included). */
  function Parse(s: string): Option<Clause>
  {
    match IndexOf(s, ':')
    case None => None
    case Some(i) =>
      var rest := s[i + 1..];
      match IndexOf(rest, ':')
      case None => None
      case Some(j) => Some(Clause(s[..i], rest[..j], rest[j + 1..]))
  }

  /** A rendered clause reads back as itself when its field and operator hold
      no colon; the value may hold any character. */
  lemma ParseRender(c: Clause)
    requires ':' !in c.field && ':' !in c.operator
    ensures Parse(Render(c)) == Some(c)
  {
    var tail := c.operator + ":" + c.value;
    assert Render(c) == c.field + [':'] + tail;
    IndexOfAfter(c.field, ':', tail);
    assert Render(c)[..|c.field|] == c.field;
    assert Render(c)[|c.field| + 1..] == tail;
    assert tail == c.operator + [':'] + c.value;
    IndexOfAfter(c.operator, ':', c.value);
    assert tail[..|c.operator|] == c.operator;
    assert tail[|c.operator| + 1..] == c.value;
  }

  /** The `filter` request parameter: every clause rendered, in order. */
  function RenderAll(cs: seq<Clause>): (r: seq<string>)
    ensures |r| == |cs|
  {
    if cs == [] then [] else [Render(cs[0])] + RenderAll(cs[1..])
  }

  /** Position `i` of the parameter is clause `i` rendered. */
  lemma {:induction false} RenderAllAt(cs: seq<Clause>, i: nat)
    requires i < |cs|
    ensures RenderAll(cs)[i] == Render(cs[i])
  {
    if i > 0 {
      RenderAllAt(cs[1..], i - 1);
    }
  }

  /** Appending a clause appends its rendering: clauses reach the server in
      the order they were added. */
  lemma {:induction false} RenderAllAppend(cs: seq<Clause>, c: Clause)
    ensures RenderAll(cs + [c]) == RenderAll(cs) + [Render(c)]
  {
    if cs == [] {
      assert cs + [c] == [c];
    } else {
      assert (cs + [c])[1..] == cs[1..] + [c];
      RenderAllAppend(cs[1..], c);
    }
  }

  /** Every clause of the parameter reads back as the clause that was added,
      when fields and operators hold no colon. */
  lemma ParseRenderAll(cs: seq<Clause>)
    requires forall i :: 0 <= i < |cs| ==> ':' !in cs[i].field && ':' !in cs[i].operator
    ensures forall i :: 0 <= i < |cs| ==> Parse(RenderAll(cs)[i]) == Some(cs[i])
  {
    forall i | 0 <= i < |cs|
      ensures Parse(RenderAll(cs)[i]) == Some(cs[i])
    {
      RenderAllAt(cs, i);
      ParseRender(cs[i]);
    }
  }
}
