/** DisplayParser: compiles a display string such as "{name} ({company.name})"
    into the ordered render elements of a table. */
module DisplayParser {
  import opened Wrappers
  import opened JavaText
  import opened Schema

  /** The runtime exceptions parse can raise. DanglingMaster stands for a
      foreign key whose master table is not in the schema the model is
      given; Java holds the master table by reference, so it cannot arise
      there. */
  datatype ParseError =
    | StringIndexOutOfBounds   // substring(0, -1): a '{' with no later '}'
    | ArrayIndexOutOfBounds    // parts[1] of "a." or "a.."
    | NullPointer              // getColumn(parts[0]) or its child foreign key is null
    | DanglingMaster

  /** chopFrom: the rest of s from idx, except that a rest of one
      character or less is dropped. */
  function ChopFrom(s: string, idx: nat): (r: string)
    ensures idx >= |s| - 1 ==> r == ""
    ensures idx < |s| - 1 ==> r == s[idx..] && |r| >= 2
  {
    if idx >= |s| - 1 then "" else s[idx..]
  }

  /** The first table of the schema named exactly as the link's master. */
  function MasterOf(schema: seq<Table>, fk: ForeignKey): (r: Option<Table>)
    ensures r.Some? ==> r.value in schema && r.value.name == MasterTable(fk)
    ensures r.None? ==> forall t :: t in schema ==> t.name != MasterTable(fk)
  {
    if schema == [] then None
    else if schema[0].name == MasterTable(fk) then Some(schema[0])
    else MasterOf(schema[1..], fk)
  }

  /** The element for a dotted block: getColumn(head) on the context,
      then getColumn(second) on the master table of its child foreign
      key; second is None when split yields fewer than two parts. */
  function FkElement(ctx: Table, schema: seq<Table>, head: string, second: Option<string>): Result<RenderElement, ParseError>
  {
    var col := GetColumn(ctx, head);
    if col.None? || col.value.childFk.None? then Err(NullPointer)
    else
      var master := MasterOf(schema, col.value.childFk.value);
      if master.None? then Err(DanglingMaster)
      else if second.None? then Err(ArrayIndexOutOfBounds)
      else Ok(FkMember(col.value, GetColumn(master.value, second.value)))
  }

  /** The second part of split("."), if there is one. */
  function SecondPart(memEl: string): Option<string>
  {
    var parts := JavaSplit(memEl, '.');
    if |parts| < 2 then None else Some(parts[1])
  }

  /** The element for the text between '{' and '}'. */
  function Block(ctx: Table, schema: seq<Table>, memEl: string): (r: Result<RenderElement, ParseError>)
    ensures r.Ok? ==> !r.value.PlainString?
  {
    if IndexOf(memEl, '.') > 0 then
      FkElement(ctx, schema, memEl[..IndexOf(memEl, '.')], SecondPart(memEl))
    else
      Ok(Member(GetColumn(ctx, memEl)))
  }

  function Prepend(e: RenderElement, r: Result<seq<RenderElement>, ParseError>): Result<seq<RenderElement>, ParseError>
  {
    match r
    case Ok(els) => Ok([e] + els)
    case Err(err) => Err(err)
  }

  function Combine(prefix: seq<RenderElement>, r: Result<seq<RenderElement>, ParseError>): Result<seq<RenderElement>, ParseError>
  {
    match r
    case Ok(els) => Ok(prefix + els)
    case Err(err) => Err(err)
  }

  lemma CombineEmpty(r: Result<seq<RenderElement>, ParseError>)
    ensures Combine([], r) == r
  {
    if r.Ok? {
      assert [] + r.value == r.value;
    }
  }

  lemma CombineStep(prefix: seq<RenderElement>, e: RenderElement, r: Result<seq<RenderElement>, ParseError>)
    ensures Combine(prefix, Prepend(e, r)) == Combine(prefix + [e], r)
  {
    if r.Ok? {
      assert prefix + ([e] + r.value) == (prefix + [e]) + r.value;
    }
  }

  /** One turn of parse's loop: the element it emits and the text it leaves. */
  datatype Turn = Turn(element: RenderElement, rest: string)

  /** One turn on the non-empty remaining text t: a block up to the next
      '}' (substring(0, -1) fails when there is none), or the text before
      the next '{', or all of t when it holds no '{'. A turn always
      shortens the text, and a plain element it emits is non-empty, holds
      no '{', and is followed by nothing or by that '{'. */
  function Step(ctx: Table, schema: seq<Table>, t: string): (r: Result<Turn, ParseError>)
    requires t != ""
    ensures r.Ok? ==> |r.value.rest| < |t|
    ensures r.Ok? && r.value.element.PlainString? ==>
      r.value.element.text != "" && '{' !in r.value.element.text &&
      (r.value.rest == "" || r.value.rest[0] == '{')
  {
    var nextBlock := IndexOf(t, '{');
    if nextBlock == 0 then
      var rest := t[1..];
      var endBlock := IndexOf(rest, '}');
      if endBlock < 0 then Err(StringIndexOutOfBounds)
      else
        match Block(ctx, schema, rest[..endBlock])
        case Err(err) => Err(err)
        case Ok(el) => Ok(Turn(el, ChopFrom(rest, endBlock + 1)))
    else if nextBlock > 0 then
      Ok(Turn(PlainString(t[..nextBlock]), ChopFrom(t, nextBlock)))
    else
      Ok(Turn(PlainString(t), ""))
  }

  /** What parse yields for the remaining text t: one turn of its loop,
      then the rest. */
  function ParseFrom(ctx: Table, schema: seq<Table>, t: string): Result<seq<RenderElement>, ParseError>
    decreases |t|
  {
    if |t| == 0 then Ok([])
    else
      match Step(ctx, schema, t)
      case Err(err) => Err(err)
      case Ok(turn) => Prepend(turn.element, ParseFrom(ctx, schema, turn.rest))
  }

  /** A string with no '{' is one plain element holding all of it (and the
      empty string compiles to no element at all). */
  lemma NoBraceIsOnePlainString(ctx: Table, schema: seq<Table>, s: string)
    requires '{' !in s
    ensures ParseFrom(ctx, schema, s) == if s == "" then Ok([]) else Ok([PlainString(s)])
  {
    if s != "" {
      assert [PlainString(s)] + [] == [PlainString(s)];
    }
  }

  /** The text before the first '{' becomes one plain element equal to
      exactly that text; a single '{' that ends the string is dropped. */
  lemma {:induction false} TextBeforeBrace(ctx: Table, schema: seq<Table>, p: string, rest: string)
    requires p != "" && '{' !in p
    requires rest != [] && rest[0] == '{'
    ensures ParseFrom(ctx, schema, p + rest)
         == Prepend(PlainString(p), ParseFrom(ctx, schema, if |rest| <= 1 then "" else rest))
  {
    var t := p + rest;
    assert t[..|p|] == p && t[|p|] == '{';
    assert IndexOf(t, '{') == |p|;
    if |rest| > 1 {
      assert t[|p|..] == rest;
    }
  }

  /** One turn of the loop at "{x}": the element for x, then the rest
      after the '}', dropped when it is a single character. */
  lemma {:induction false} BlockTurn(ctx: Table, schema: seq<Table>, x: string, rest: string)
    requires '}' !in x
    ensures ParseFrom(ctx, schema, "{" + x + "}" + rest)
         == match Block(ctx, schema, x)
            case Err(err) => Err(err)
            case Ok(el) => Prepend(el, ParseFrom(ctx, schema, if |rest| <= 1 then "" else rest))
  {
    var t := "{" + x + "}" + rest;
    var tail := t[1..];
    assert t[0] == '{';
    assert tail == x + ['}'] + rest;
    IndexOfAfter(x, '}', rest);
    assert tail[..|x|] == x;
    if |rest| > 1 {
      assert tail[|x| + 1..] == rest;
    }
  }

  /** "{x}" with no '.' after the first character of x yields the member
      element for getColumn(x); a rest of one character is dropped. */
  lemma MemberBlock(ctx: Table, schema: seq<Table>, x: string, rest: string)
    requires '}' !in x && IndexOf(x, '.') <= 0
    ensures ParseFrom(ctx, schema, "{" + x + "}" + rest)
         == Prepend(Member(GetColumn(ctx, x)), ParseFrom(ctx, schema, if |rest| <= 1 then "" else rest))
  {
    BlockTurn(ctx, schema, x, rest);
  }

  /** "{a}x" compiles to the member element for a alone: the character
      after the closing brace is dropped by chopFrom. */
  lemma OneTrailingCharacterDropped(ctx: Table, schema: seq<Table>)
    ensures ParseFrom(ctx, schema, "{a}x") == Ok([Member(GetColumn(ctx, "a"))])
  {
    assert "{a}x" == "{" + "a" + "}" + "x";
    assert IndexOf("a", '.') == -1;
    MemberBlock(ctx, schema, "a", "x");
    assert [Member(GetColumn(ctx, "a"))] + [] == [Member(GetColumn(ctx, "a"))];
  }

  /** Java's split keeps the piece at index k when it is not empty. */
  lemma DropTrailingEmptyKeeps(pieces: seq<string>, k: nat)
    requires k < |pieces| && pieces[k] != ""
    ensures k < |DropTrailingEmpty(pieces)| && DropTrailingEmpty(pieces)[k] == pieces[k]
  {
  }

  /** The first piece of b + suffix, with b free of '.' and the suffix
      empty or starting with '.', is b. */
  lemma FirstPieceBeforeSuffix(b: string, suffix: string)
    requires '.' !in b
    requires suffix == "" || suffix[0] == '.'
    ensures SplitAll(b + suffix, '.')[0] == b
  {
    if suffix == "" {
      assert b + suffix == b;
      SplitAllAbsent(b, '.');
    } else {
      assert b + suffix == b + ['.'] + suffix[1..];
      SplitAllAfter(b, '.', suffix[1..]);
    }
  }

  /** Splitting "a.b..." on '.' gives a and b as its first two parts. */
  lemma SplitFirstTwo(a: string, b: string, suffix: string)
    requires a != "" && b != "" && '.' !in a && '.' !in b
    requires suffix == "" || suffix[0] == '.'
    ensures var parts := JavaSplit(a + "." + b + suffix, '.');
            |parts| >= 2 && parts[0] == a && parts[1] == b
  {
    var x := a + "." + b + suffix;
    var tail := b + suffix;
    assert x == a + ['.'] + tail;
    assert x[|a|] == '.';
    SplitAllAfter(a, '.', tail);
    FirstPieceBeforeSuffix(b, suffix);
    var all := SplitAll(x, '.');
    assert all[0] == a && all[1] == b;
    DropTrailingEmptyKeeps(all, 0);
    DropTrailingEmptyKeeps(all, 1);
  }

  /** The second part of "a.b..." is b, and its first '.' follows a. */
  lemma DottedParts(a: string, b: string, suffix: string)
    requires a != "" && b != "" && '.' !in a && '.' !in b
    requires suffix == "" || suffix[0] == '.'
    ensures var x := a + "." + b + suffix;
      SecondPart(x) == Some(b) && IndexOf(x, '.') == |a| && x[..|a|] == a
  {
    var x := a + "." + b + suffix;
    SplitFirstTwo(a, b, suffix);
    assert x == a + ['.'] + (b + suffix);
    IndexOfAfter(a, '.', b + suffix);
  }

  /** A block with a '.' after its first character is a foreign-key block. */
  lemma DottedBlock(ctx: Table, schema: seq<Table>, memEl: string)
    requires IndexOf(memEl, '.') > 0
    ensures Block(ctx, schema, memEl) == FkElement(ctx, schema, memEl[..IndexOf(memEl, '.')], SecondPart(memEl))
  {
  }

  /** The element for "a.b...", with a and b free of '.': a dotted block
      whose head is a and whose second part is b. */
  lemma FkBlockElement(ctx: Table, schema: seq<Table>, a: string, b: string, suffix: string)
    requires a != "" && b != "" && '.' !in a && '.' !in b
    requires suffix == "" || suffix[0] == '.'
    ensures Block(ctx, schema, a + "." + b + suffix) == FkElement(ctx, schema, a, Some(b))
  {
    DottedParts(a, b, suffix);
    DottedBlock(ctx, schema, a + "." + b + suffix);
  }

  /** "{a.b...}" yields a foreign-key element whose first column is
      getColumn(a) and whose second is column b of the master table of
      a's child foreign key; parts after b are ignored. A missing column a
      or a column without a child foreign key fails. */
  lemma ForeignKeyBlock(ctx: Table, schema: seq<Table>, a: string, b: string, suffix: string, rest: string)
    requires a != "" && b != "" && '.' !in a && '.' !in b
    requires suffix == "" || suffix[0] == '.'
    requires '}' !in a + "." + b + suffix
    ensures var col := GetColumn(ctx, a);
      (col.None? || col.value.childFk.None?) ==>
        ParseFrom(ctx, schema, "{" + a + "." + b + suffix + "}" + rest) == Err(NullPointer)
    ensures var col := GetColumn(ctx, a);
      (col.Some? && col.value.childFk.Some? && MasterOf(schema, col.value.childFk.value).None?) ==>
        ParseFrom(ctx, schema, "{" + a + "." + b + suffix + "}" + rest) == Err(DanglingMaster)
    ensures var col := GetColumn(ctx, a);
      (col.Some? && col.value.childFk.Some? && MasterOf(schema, col.value.childFk.value).Some?) ==>
        ParseFrom(ctx, schema, "{" + a + "." + b + suffix + "}" + rest)
        == Prepend(FkMember(col.value, GetColumn(MasterOf(schema, col.value.childFk.value).value, b)),
                   ParseFrom(ctx, schema, if |rest| <= 1 then "" else rest))
  {
    var x := a + "." + b + suffix;
    assert "{" + a + "." + b + suffix + "}" + rest == "{" + x + "}" + rest;
    FkBlockElement(ctx, schema, a, b, suffix);
    BlockTurn(ctx, schema, x, rest);
  }

  /** A '{' with no later '}' fails with substring(0, -1), unless it is
      the last character after some text, where chopFrom drops it. */
  lemma {:induction false} UnterminatedBrace(ctx: Table, schema: seq<Table>, p: string, u: string)
    requires '{' !in p && '}' !in u
    ensures p != "" && u == "" ==> ParseFrom(ctx, schema, p + "{" + u) == Ok([PlainString(p)])
    ensures p == "" || u != "" ==> ParseFrom(ctx, schema, p + "{" + u) == Err(StringIndexOutOfBounds)
  {
    var t := "{" + u;
    assert t[1..] == u;
    assert IndexOf(u, '}') == -1;
    assert ParseFrom(ctx, schema, t) == Err(StringIndexOutOfBounds);
    if p != "" {
      assert p + "{" + u == p + t;
      TextBeforeBrace(ctx, schema, p, t);
      assert [PlainString(p)] + [] == [PlainString(p)];
    } else {
      assert p + "{" + u == t;
    }
  }

  /** The shape of every successful result: plain elements are non-empty,
      hold no '{', and never follow each other. */
  ghost predicate WellFormedPlan(els: seq<RenderElement>)
  {
    (forall i :: 0 <= i < |els| && els[i].PlainString? ==> els[i].text != "" && '{' !in els[i].text) &&
    (forall i :: 0 <= i < |els| - 1 && els[i].PlainString? ==> !els[i + 1].PlainString?)
  }

  lemma StartsWithBlock(ctx: Table, schema: seq<Table>, t: string)
    requires t != "" && t[0] == '{'
    requires ParseFrom(ctx, schema, t).Ok? && ParseFrom(ctx, schema, t).value != []
    ensures !ParseFrom(ctx, schema, t).value[0].PlainString?
  {
    assert IndexOf(t, '{') == 0;
  }

  lemma WellFormedCons(e: RenderElement, tail: seq<RenderElement>)
    requires WellFormedPlan(tail)
    requires e.PlainString? ==> e.text != "" && '{' !in e.text && (tail != [] ==> !tail[0].PlainString?)
    ensures WellFormedPlan([e] + tail)
  {
    var els := [e] + tail;
    forall i | 0 <= i < |els| && els[i].PlainString?
      ensures els[i].text != "" && '{' !in els[i].text
    {
      if i > 0 { assert els[i] == tail[i - 1]; }
    }
    forall i | 0 <= i < |els| - 1 && els[i].PlainString?
      ensures !els[i + 1].PlainString?
    {
      if i > 0 { assert els[i] == tail[i - 1] && els[i + 1] == tail[i]; }
    }
  }

  /** Every element of a successful result consumes at least one
      character of the display string. */
  lemma {:induction false} ParseLength(ctx: Table, schema: seq<Table>, t: string)
    requires ParseFrom(ctx, schema, t).Ok?
    ensures |ParseFrom(ctx, schema, t).value| <= |t|
    decreases |t|
  {
    if |t| > 0 {
      ParseLength(ctx, schema, Step(ctx, schema, t).value.rest);
    }
  }

  /** Every successful result is well formed: the plain text between
      blocks is kept whole, so two plain elements never follow each other. */
  lemma {:induction false} ParseIsWellFormed(ctx: Table, schema: seq<Table>, t: string)
    requires ParseFrom(ctx, schema, t).Ok?
    ensures WellFormedPlan(ParseFrom(ctx, schema, t).value)
    decreases |t|
  {
    if |t| > 0 {
      var turn := Step(ctx, schema, t).value;
      var e, next := turn.element, turn.rest;
      ParseIsWellFormed(ctx, schema, next);
      if e.PlainString? && ParseFrom(ctx, schema, next).value != [] {
        StartsWithBlock(ctx, schema, next);
      }
      BlockStepWellFormed(e, ParseFrom(ctx, schema, next));
    }
  }

  lemma BlockStepWellFormed(e: RenderElement, r: Result<seq<RenderElement>, ParseError>)
    requires r.Ok? && WellFormedPlan(r.value)
    requires e.PlainString? ==> e.text != "" && '{' !in e.text && (r.value != [] ==> !r.value[0].PlainString?)
    ensures Prepend(e, r).Ok? && WellFormedPlan(Prepend(e, r).value)
  {
    WellFormedCons(e, r.value);
  }

  /** The parser object: the table the display string is read against
      (with the tables its foreign keys point into) and the string. */
  class Parser {
    const context: Table
    const schema: seq<Table>
    const display: string

    constructor (context: Table, schema: seq<Table>, display: string)
      ensures this.context == context && this.schema == schema && this.display == display
    {
      this.context := context;
      this.schema := schema;
      this.display := display;
    }

    /** parse: scans the string left to right, emitting one element per
        turn; a Java exception becomes Err. */
    method Parse() returns (r: Result<seq<RenderElement>, ParseError>)
      ensures r == ParseFrom(context, schema, display)
    {
      var parsed: seq<RenderElement> := [];
      var tdisplay := display;
      CombineEmpty(ParseFrom(context, schema, display));
      while |tdisplay| > 0
        invariant ParseFrom(context, schema, display) == Combine(parsed, ParseFrom(context, schema, tdisplay))
        decreases |tdisplay|
      {
        var turn := NextTurn(tdisplay);
        if turn.Err? {
          return Err(turn.error);
        }
        CombineStep(parsed, turn.value.element, ParseFrom(context, schema, turn.value.rest));
        parsed := parsed + [turn.value.element];
        tdisplay := turn.value.rest;
      }
      assert parsed + [] == parsed;
      return Ok(parsed);
    }

    /** One turn of parse's loop on the remaining text: a block up to the
        next '}', the text up to the next '{', or all the rest. */
    method NextTurn(tdisplay: string) returns (r: Result<Turn, ParseError>)
      requires tdisplay != ""
      ensures r == Step(context, schema, tdisplay)
    {
      var nextBlock := IndexOf(tdisplay, '{');
      if nextBlock == 0 {
        var rest := tdisplay[1..];
        var endBlock := IndexOf(rest, '}');
        if endBlock < 0 {
          return Err(StringIndexOutOfBounds);
        }
        var el := Block(context, schema, rest[..endBlock]);
        if el.Err? {
          return Err(el.error);
        }
        return Ok(Turn(el.value, ChopFrom(rest, endBlock + 1)));
      } else if nextBlock > 0 {
        return Ok(Turn(PlainString(tdisplay[..nextBlock]), ChopFrom(tdisplay, nextBlock)));
      } else {
        return Ok(Turn(PlainString(tdisplay), ""));
      }
    }
  }
}
