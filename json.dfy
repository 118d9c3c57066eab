/**
 * JSON text as an abstract domain. A string held by the browser store is either
 * the serialization of a JSON document or text that the JSON parser rejects
 * (a truncated value, hand-edited garbage, the empty string).
 */
module Json {
  import opened Types

  /** The documents this application ever writes, plus `null`. */
  datatype Json =
    | JNull
    | JCart(items: seq<CartItem>)
    | JOrders(orders: seq<Order>)
    | JUser(user: User)

  datatype Text = Serialized(doc: Json) | Unparsable(chars: string)

  function Serialize(doc: Json): (t: Text)
    ensures t != Unparsable("")
  {
    Serialized(doc)
  }

  /** `JSON.parse`: `None` stands for the exception it throws. */
  function Parse(t: Text): (r: Option<Json>)
    ensures r.None? <==> t.Unparsable?
  {
    match t
    case Serialized(doc) => Some(doc)
    case Unparsable(_) => None
  }

  lemma ParseSerialize(doc: Json)
    ensures Parse(Serialize(doc)) == Some(doc)
  {
  }

  /** JavaScript falsiness of a stored string: only the empty string is falsy. */
  predicate IsEmptyText(t: Text) {
    t == Unparsable("")
  }
}
