/** The cart record as the floor board reads it, JavaScript's `||` fallback
    on optional strings, and the board's status priority table. */
module Carts {

  datatype Option<T> = None | Some(value: T)

  /** A cart ("carrinho") as returned by the cart listing. Only the fields
      the board reads are kept; `nome` and `status` may be absent from a
      stored record, and `status` is kept as free text so that a value
      outside the table behaves as it does in the page. */
  datatype Cart = Cart(id: string, nome: Option<string>, localizacao: string, status: Option<string>)

  const Aberto := "aberto"
  const Estoque := "estoque"
  const Fechado := "fechado"
  const Vazio := "vazio"

  /** `x || fallback` for an optional string: an absent value and the empty
      string are both falsy. */
  function OrElse(x: Option<string>, fallback: string): (r: string)
    ensures r == fallback || (x.Some? && r == x.value)
    ensures r == fallback <==> x.None? || x.value == "" || x.value == fallback
  {
    if x.Some? && x.value != "" then x.value else fallback
  }

  /** `carrinho.status || "estoque"`: a cart without a status counts as
      needing restocking. */
  function EffectiveStatus(c: Cart): (s: string)
    ensures s != ""
    ensures c.status.None? ==> s == Estoque
  {
    OrElse(c.status, Estoque)
  }

  /** The priority table `statusPrioridade`: the lower the rank, the higher
      the priority. Any other key is absent from the table. */
  function Rank(s: string): (r: Option<nat>)
    ensures r.Some? <==> s in {Aberto, Estoque, Fechado, Vazio}
    ensures r.Some? ==> 1 <= r.value <= 4
  {
    if s == Aberto then Some(1)
    else if s == Estoque then Some(2)
    else if s == Fechado then Some(3)
    else if s == Vazio then Some(4)
    else None
  }

  /** `statusPrioridade[a] < statusPrioridade[b]`. A key missing from the
      table reads as `undefined`, and comparing `undefined` with a number
      is false, so such a status never outranks a table status and is never
      outranked by one; two such statuses are taken as incomparable.
      Spelled out, the table orders aberto before estoque before fechado
      before vazio. */
  predicate Outranks(a: string, b: string): (r: bool)
    ensures r <==>
      (a == Aberto && (b == Estoque || b == Fechado || b == Vazio)) ||
      (a == Estoque && (b == Fechado || b == Vazio)) ||
      (a == Fechado && b == Vazio)
  {
    Rank(a).Some? && Rank(b).Some? && Rank(a).value < Rank(b).value
  }

  /** The three statuses a cart can be given on the board. */
  predicate IsCartStatus(s: string) {
    s == Aberto || s == Estoque || s == Fechado
  }
}
