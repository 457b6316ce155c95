/** Forms without positions, as the later passes read them. */
module Sexprs {
  datatype Sexpr = Atom(text: string) | Str(text: string) | List(items: seq<Sexpr>)
}
