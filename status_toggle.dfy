/** A click on a floor card (`handleToggleStatus`): the first cart of the
    floor advances along the status cycle, the change is sent to the
    server, and on success the board's local table is rewritten. */
module StatusToggle {
  import opened Carts
  import opened FloorStatus

  /** The cycle aberto -> fechado -> estoque -> aberto, compared on the raw
      stored status: anything other than "aberto" or "fechado" (an unset
      status included) moves to "aberto". */
  function NextStatus(status: Option<string>): (r: string)
    ensures IsCartStatus(r)
    ensures status == Some(Aberto) ==> r == Fechado
    ensures status == Some(Fechado) ==> r == Estoque
    ensures r == Aberto <==> status != Some(Aberto) && status != Some(Fechado)
  {
    if status == Some(Aberto) then Fechado
    else if status == Some(Fechado) then Estoque
    else Aberto
  }

  /** The cycle has period three on the three cart statuses, and no shorter one. */
  lemma NextStatusCycle(s: string)
    requires IsCartStatus(s)
    ensures NextStatus(Some(NextStatus(Some(NextStatus(Some(s)))))) == s
    ensures NextStatus(Some(s)) != s
    ensures NextStatus(Some(NextStatus(Some(s)))) != s
  {
  }

  /** Cycling on the raw status agrees with cycling on the status the board
      shows: an unset or empty status is treated like "estoque". */
  lemma NextStatusOfEffective(c: Cart)
    ensures NextStatus(c.status) == NextStatus(Some(EffectiveStatus(c)))
  {
  }

  /** The update the click sends to the server: the first cart's id and
      its next status. */
  datatype Patch = Patch(id: string, status: string)

  /** A floor the click acts on: an existing bucket holding a cart. */
  predicate Clickable(floors: seq<seq<Cart>>, andarIndex: int) {
    0 <= andarIndex < |floors| && floors[andarIndex] != []
  }

  /** The PATCH `handleToggleStatus` sends, or none for an empty floor. */
  function TogglePatch(floors: seq<seq<Cart>>, andarIndex: int): (p: Option<Patch>)
    ensures p.Some? <==> Clickable(floors, andarIndex)
    ensures p.Some? ==>
      p.value.id == floors[andarIndex][0].id &&
      p.value.status == NextStatus(floors[andarIndex][0].status)
  {
    if Clickable(floors, andarIndex) then
      var carrinhoParaAtualizar := floors[andarIndex][0];
      Some(Patch(carrinhoParaAtualizar.id, NextStatus(carrinhoParaAtualizar.status)))
    else None
  }

  /** `c.id === id ? { ...c, status } : c` over one floor. */
  function SetStatusById(floor: seq<Cart>, id: string, status: string): (r: seq<Cart>)
    ensures |r| == |floor|
    ensures forall j :: 0 <= j < |floor| ==>
      r[j].id == floor[j].id && r[j].nome == floor[j].nome && r[j].localizacao == floor[j].localizacao &&
      r[j].status == (if floor[j].id == id then Some(status) else floor[j].status)
  {
    seq(|floor|, j requires 0 <= j < |floor| =>
      if floor[j].id == id then floor[j].(status := Some(status)) else floor[j])
  }

  /** The local table after the click. The server's answer is a parameter:
      when the PATCH fails the table is left as it was. */
  function ToggleStatus(floors: seq<seq<Cart>>, andarIndex: int, patchSucceeded: bool): (r: seq<seq<Cart>>)
    ensures |r| == |floors|
    ensures !Clickable(floors, andarIndex) || !patchSucceeded ==> r == floors
    ensures forall b :: 0 <= b < |floors| && b != andarIndex ==> r[b] == floors[b]
    ensures Clickable(floors, andarIndex) && patchSucceeded ==>
      var target := floors[andarIndex][0];
      r[andarIndex] == SetStatusById(floors[andarIndex], target.id, NextStatus(target.status))
  {
    match TogglePatch(floors, andarIndex)
    case None => floors
    case Some(patch) =>
      if patchSucceeded then floors[andarIndex := SetStatusById(floors[andarIndex], patch.id, patch.status)]
      else floors
  }

  /** After a successful click, the first cart carries the next status, and
      every other cart of the table keeps its status unless it shares the
      first cart's id on that floor; no other field of any cart changes. */
  lemma ToggleAdvancesFirstCart(floors: seq<seq<Cart>>, andarIndex: int)
    requires Clickable(floors, andarIndex)
    ensures
      var r := ToggleStatus(floors, andarIndex, true);
      var target := floors[andarIndex][0];
      |r[andarIndex]| == |floors[andarIndex]| &&
      r[andarIndex][0].status == Some(NextStatus(target.status)) &&
      (forall b, j :: 0 <= b < |floors| && 0 <= j < |floors[b]| ==>
         |r[b]| == |floors[b]| &&
         r[b][j] == floors[b][j].(status := r[b][j].status) &&
         (r[b][j].status != floors[b][j].status ==> b == andarIndex && floors[b][j].id == target.id))
  {
  }

  /** A click that opens the first cart turns the floor card open. */
  lemma ToggleToOpenOpensFloor(floors: seq<seq<Cart>>, andarIndex: int)
    requires Clickable(floors, andarIndex)
    requires NextStatus(floors[andarIndex][0].status) == Aberto
    ensures StatusOf(ToggleStatus(floors, andarIndex, true)[andarIndex]) == Aberto
  {
    var r := ToggleStatus(floors, andarIndex, true);
    OpenCartOpensFloor(r[andarIndex], 0);
  }

  /** On a floor holding a single cart whose effective status is one of the
      three (an unset or empty status counts as "estoque"), the card shows
      that status and each click moves it one step along the cycle. */
  lemma ToggleLoneCart(floors: seq<seq<Cart>>, andarIndex: int)
    requires 0 <= andarIndex < |floors| && |floors[andarIndex]| == 1
    requires IsCartStatus(EffectiveStatus(floors[andarIndex][0]))
    ensures StatusOf(floors[andarIndex]) == EffectiveStatus(floors[andarIndex][0])
    ensures StatusOf(ToggleStatus(floors, andarIndex, true)[andarIndex]) ==
      NextStatus(Some(EffectiveStatus(floors[andarIndex][0])))
  {
    var f := floors[andarIndex];
    assert HasStatus(f, EffectiveStatus(f[0]));
    var g := ToggleStatus(floors, andarIndex, true)[andarIndex];
    assert HasStatus(g, EffectiveStatus(g[0]));
  }

  /** Three successful clicks on a floor restore its table, provided the
      carts sharing the first cart's id there also share its status and
      that status is one of the three. */
  lemma ToggleThriceRestores(floors: seq<seq<Cart>>, andarIndex: int)
    requires Clickable(floors, andarIndex)
    requires floors[andarIndex][0].status.Some? && IsCartStatus(floors[andarIndex][0].status.value)
    requires forall j :: 0 <= j < |floors[andarIndex]| && floors[andarIndex][j].id == floors[andarIndex][0].id ==>
      floors[andarIndex][j].status == floors[andarIndex][0].status
    ensures ToggleStatus(ToggleStatus(ToggleStatus(floors, andarIndex, true), andarIndex, true), andarIndex, true) == floors
  {
    var s := floors[andarIndex][0].status.value;
    NextStatusCycle(s);
    var r1 := ToggleStatus(floors, andarIndex, true);
    var r2 := ToggleStatus(r1, andarIndex, true);
    var r3 := ToggleStatus(r2, andarIndex, true);
    assert r3[andarIndex] == floors[andarIndex];
    assert forall b :: 0 <= b < |floors| ==> r3[b] == floors[b];
  }
}
