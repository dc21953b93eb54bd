/** The records the routes and the client exchange (types/index.d.ts). */
module Domain {

  datatype Option<T> = None | Some(value: T) {
    function GetOr(default: T): T {
      match this
      case Some(v) => v
      case None => default
    }
  }

  /** A knowledge-base entry. It is matched by substring containment of its
      name or of one of its aliases, never looked up by key. */
  datatype Ingredient = Ingredient(
    ingredientName: string,
    aliases: seq<string>,
    category: string,
    summary: string,
    details: string,
    source: string)

  datatype Role = User | Assistant

  datatype Message = Message(role: Role, content: string)
}
