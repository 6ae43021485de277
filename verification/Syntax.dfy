/** The part of Rust's type syntax that the macros look at. */
module Syntax {
  import opened Machine

  datatype Type = Path(segments: seq<Segment>) | NonPath(text: string)

  datatype Segment = Segment(ident: string, args: seq<GenericArg>)

  datatype GenericArg = TypeArg(ty: Type) | NonType(text: string)

  function LastSegment(ty: Type): Option<Segment> {
    if ty.Path? && ty.segments != [] then Some(ty.segments[|ty.segments| - 1]) else None
  }

  function LastIdent(ty: Type): Option<string> {
    match LastSegment(ty)
    case Some(segment) => Some(segment.ident)
    case None => None
  }

  /** `extract_type_name` */
  function TypeName(ty: Type): string {
    match LastIdent(ty)
    case Some(ident) => ident
    case None => "Unknown"
  }

  predicate IsNamed(ty: Type, ident: string) {
    LastIdent(ty) == Some(ident)
  }

  /** `extract_generic_type`: the first generic argument of the last segment, if it is a type. */
  function GenericType(ty: Type): Option<Type> {
    match LastSegment(ty)
    case Some(segment) => if segment.args != [] && segment.args[0].TypeArg? then Some(segment.args[0].ty) else None
    case None => None
  }
}
