/** RenderElement and its three implementations. The elements themselves
    are Schema.RenderElement (the schema holds compiled render plans); this
    module gives the tag each reports and the text each prints. */
module Render {
  import opened Wrappers
  import opened Schema

  /** RenderElement.RenderType: a closed set of three tags. */
  datatype RenderType = PLAIN_STRING | MEMBER | FK_MEMBER

  /** getType: each element reports the tag of its own variant and no
      other. */
  function GetType(e: RenderElement): (r: RenderType)
    ensures r == PLAIN_STRING <==> e.PlainString?
    ensures r == MEMBER <==> e.Member?
    ensures r == FK_MEMBER <==> e.FkMember?
  {
    match e
    case PlainString(_) => PLAIN_STRING
    case Member(_) => MEMBER
    case FkMember(_, _) => FK_MEMBER
  }

  /** toString: a plain string prints its text and a member element the
      name of its column. A member holding null fails (None), and a
      foreign-key element keeps Object.toString, which is not modelled. */
  function ToString(e: RenderElement): (r: Option<string>)
    ensures e.PlainString? ==> r == Some(e.text)
    ensures e.Member? && e.column.Some? ==> r == Some(e.column.value.name)
    ensures r.Some? <==> e.PlainString? || (e.Member? && e.column.Some?)
  {
    match e
    case PlainString(text) => Some(text)
    case Member(col) => if col.Some? then Some(col.value.name) else None
    case FkMember(_, _) => None
  }
}
