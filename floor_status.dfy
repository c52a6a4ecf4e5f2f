/** The status and the display name of one floor card
    (`getStatusDoAndar` and `getNomeCarrinhoDisplay`). */
module FloorStatus {
  import opened Carts

  /** Some cart on the floor has effective status `s`. */
  predicate HasStatus(floor: seq<Cart>, s: string) {
    exists i :: 0 <= i < |floor| && EffectiveStatus(floor[i]) == s
  }

  /** What the floor card shows, stated directly: an empty floor is
      "vazio"; one open cart makes the floor open; otherwise one cart
      needing restock (a cart without status counts as one) makes it
      "estoque"; otherwise it is closed. */
  function StatusOf(floor: seq<Cart>): string {
    if floor == [] then Vazio
    else if HasStatus(floor, Aberto) then Aberto
    else if HasStatus(floor, Estoque) then Estoque
    else Fechado
  }

  /** `getStatusDoAndar`: starting from "fechado", keep whichever cart status
      outranks the one kept so far. */
  method GetStatusDoAndar(carrinhosNoAndar: seq<Cart>) returns (status: string)
    ensures status == StatusOf(carrinhosNoAndar)
  {
    if |carrinhosNoAndar| == 0 {
      return Vazio;
    }
    var statusPrioritario := Fechado;
    for i := 0 to |carrinhosNoAndar|
      invariant statusPrioritario ==
        if HasStatus(carrinhosNoAndar[..i], Aberto) then Aberto
        else if HasStatus(carrinhosNoAndar[..i], Estoque) then Estoque
        else Fechado
    {
      var statusAtual := EffectiveStatus(carrinhosNoAndar[i]);
      HasStatusSnoc(carrinhosNoAndar, i, Aberto);
      HasStatusSnoc(carrinhosNoAndar, i, Estoque);
      if Outranks(statusAtual, statusPrioritario) {
        statusPrioritario := statusAtual;
      }
    }
    assert carrinhosNoAndar[..|carrinhosNoAndar|] == carrinhosNoAndar;
    status := statusPrioritario;
  }

  lemma HasStatusSnoc(floor: seq<Cart>, i: nat, s: string)
    requires i < |floor|
    ensures HasStatus(floor[..i + 1], s) <==> HasStatus(floor[..i], s) || EffectiveStatus(floor[i]) == s
  {
    if HasStatus(floor[..i + 1], s) && EffectiveStatus(floor[i]) != s {
      var j :| 0 <= j < i + 1 && EffectiveStatus(floor[..i + 1][j]) == s;
      assert floor[..i][j] == floor[j];
    }
    if HasStatus(floor[..i], s) {
      var j :| 0 <= j < i && EffectiveStatus(floor[..i][j]) == s;
      assert floor[..i + 1][j] == floor[j];
    }
    if EffectiveStatus(floor[i]) == s {
      assert floor[..i + 1][i] == floor[i];
    }
  }

  /** The floor's status is the highest-priority status among its carts,
      with "fechado" as the baseline: it is one of the three cart statuses,
      no cart outranks it, and it is "fechado" or the status of some cart.
      A status missing from the table (or "vazio") never wins. */
  lemma StatusIsHighestPriority(floor: seq<Cart>)
    requires floor != []
    ensures IsCartStatus(StatusOf(floor))
    ensures forall i :: 0 <= i < |floor| ==> !Outranks(EffectiveStatus(floor[i]), StatusOf(floor))
    ensures StatusOf(floor) == Fechado || HasStatus(floor, StatusOf(floor))
  {
    var s := StatusOf(floor);
    forall i | 0 <= i < |floor|
      ensures !Outranks(EffectiveStatus(floor[i]), s)
    {
      var t := EffectiveStatus(floor[i]);
      if t == Aberto {
        assert HasStatus(floor, Aberto);
      } else if t == Estoque {
        assert HasStatus(floor, Estoque);
      }
    }
  }

  /** Conversely, those three facts single the status out. */
  lemma HighestPriorityIsStatus(floor: seq<Cart>, t: string)
    requires floor != []
    requires IsCartStatus(t)
    requires forall i :: 0 <= i < |floor| ==> !Outranks(EffectiveStatus(floor[i]), t)
    requires t == Fechado || HasStatus(floor, t)
    ensures t == StatusOf(floor)
  {
    if HasStatus(floor, Aberto) {
      var i :| 0 <= i < |floor| && EffectiveStatus(floor[i]) == Aberto;
      assert !Outranks(EffectiveStatus(floor[i]), t);
    } else if HasStatus(floor, Estoque) {
      var i :| 0 <= i < |floor| && EffectiveStatus(floor[i]) == Estoque;
      assert !Outranks(EffectiveStatus(floor[i]), t);
    }
  }

  /** The status depends on which carts are on the floor, not on their order. */
  lemma StatusIgnoresOrder(a: seq<Cart>, b: seq<Cart>)
    requires multiset(a) == multiset(b)
    ensures StatusOf(a) == StatusOf(b)
  {
    forall s | HasStatus(a, s)
      ensures HasStatus(b, s)
    {
      var i :| 0 <= i < |a| && EffectiveStatus(a[i]) == s;
      assert a[i] in multiset(b);
      var j :| 0 <= j < |b| && b[j] == a[i];
    }
    forall s | HasStatus(b, s)
      ensures HasStatus(a, s)
    {
      var j :| 0 <= j < |b| && EffectiveStatus(b[j]) == s;
      assert b[j] in multiset(a);
      var i :| 0 <= i < |a| && a[i] == b[j];
    }
    assert a == [] <==> b == [] by {
      assert |a| == |multiset(a)| == |multiset(b)| == |b|;
    }
  }

  /** A cart whose status is outside the three cart statuses does not
      change the status of a floor that already has carts, and on its own
      leaves the "fechado" baseline. */
  lemma UnknownStatusIsIgnored(floor: seq<Cart>, c: Cart)
    requires !IsCartStatus(EffectiveStatus(c))
    ensures StatusOf(floor + [c]) == if floor == [] then Fechado else StatusOf(floor)
  {
    var f := floor + [c];
    forall s | IsCartStatus(s)
      ensures HasStatus(f, s) <==> HasStatus(floor, s)
    {
      if HasStatus(f, s) {
        var i :| 0 <= i < |f| && EffectiveStatus(f[i]) == s;
        assert i < |floor| && f[i] == floor[i];
      }
      if HasStatus(floor, s) {
        var i :| 0 <= i < |floor| && EffectiveStatus(floor[i]) == s;
        assert f[i] == floor[i];
      }
    }
  }

  /** One open cart turns the whole floor open, whatever else is there. */
  lemma OpenCartOpensFloor(floor: seq<Cart>, i: nat)
    requires i < |floor| && EffectiveStatus(floor[i]) == Aberto
    ensures StatusOf(floor) == Aberto
  {
    assert HasStatus(floor, Aberto);
  }

  /** A floor whose only cart has no status reads "estoque"; a closed and
      an open cart read open; an empty floor reads "vazio". */
  lemma StatusExamples(id: string, nome: Option<string>, loc: string)
    ensures StatusOf([Cart(id, nome, loc, None)]) == Estoque
    ensures StatusOf([Cart(id, nome, loc, Some(Fechado)), Cart(id, nome, loc, Some(Aberto))]) == Aberto
    ensures StatusOf([]) == Vazio
  {
    var lone := [Cart(id, nome, loc, None)];
    assert EffectiveStatus(lone[0]) == Estoque;
    assert HasStatus(lone, Estoque);
    var pair := [Cart(id, nome, loc, Some(Fechado)), Cart(id, nome, loc, Some(Aberto))];
    OpenCartOpensFloor(pair, 1);
  }

  /** The cart `getNomeCarrinhoDisplay` settles on, stated directly. The
      scan starts at the first cart and moves only to a cart that strictly
      outranks the one held, so: if the first cart's status is missing from
      the table, nothing outranks it and it is kept; otherwise the cart kept
      is the first one of highest priority among the carts whose status is
      in the table. */
  ghost predicate IsPriorityCart(floor: seq<Cart>, k: nat) {
    k < |floor| &&
    if Rank(EffectiveStatus(floor[0])).None? then k == 0
    else
      Rank(EffectiveStatus(floor[k])).Some? &&
      (forall j :: 0 <= j < |floor| ==> !Outranks(EffectiveStatus(floor[j]), EffectiveStatus(floor[k]))) &&
      (forall j :: 0 <= j < k ==> Rank(EffectiveStatus(floor[j])) != Rank(EffectiveStatus(floor[k])))
  }

  /** `getNomeCarrinhoDisplay`: "(Vazio)" for an empty floor, the lone
      cart's name (or "") for one cart, and otherwise the name (or
      "Múltiplos") of the cart the priority scan settles on. */
  method GetNomeCarrinhoDisplay(carrinhosNoAndar: seq<Cart>) returns (nome: string)
    ensures carrinhosNoAndar == [] ==> nome == "(Vazio)"
    ensures |carrinhosNoAndar| == 1 ==> nome == OrElse(carrinhosNoAndar[0].nome, "")
    ensures |carrinhosNoAndar| > 1 ==>
      exists k: nat :: IsPriorityCart(carrinhosNoAndar, k) && nome == OrElse(carrinhosNoAndar[k].nome, "Múltiplos")
  {
    if |carrinhosNoAndar| == 0 {
      return "(Vazio)";
    }
    if |carrinhosNoAndar| == 1 {
      return OrElse(carrinhosNoAndar[0].nome, "");
    }
    var carrinhoPrioritario := carrinhosNoAndar[0];
    ghost var k: nat := 0;
    for i := 0 to |carrinhosNoAndar|
      invariant k < |carrinhosNoAndar| && carrinhoPrioritario == carrinhosNoAndar[k]
      invariant i == 0 ==> k == 0
      invariant 0 < i ==> IsPriorityCart(carrinhosNoAndar[..i], k)
    {
      var carrinho := carrinhosNoAndar[i];
      var statusAtual := EffectiveStatus(carrinho);
      var statusPrioritarioAtual := EffectiveStatus(carrinhoPrioritario);
      PriorityCartSnoc(carrinhosNoAndar, i, k);
      if Outranks(statusAtual, statusPrioritarioAtual) {
        carrinhoPrioritario := carrinho;
        k := i;
      }
    }
    assert carrinhosNoAndar[..|carrinhosNoAndar|] == carrinhosNoAndar;
    nome := OrElse(carrinhoPrioritario.nome, "Múltiplos");
  }

  /** One step of the scan keeps `IsPriorityCart` on the scanned prefix. */
  lemma PriorityCartSnoc(floor: seq<Cart>, i: nat, k: nat)
    requires i < |floor| && k < |floor|
    requires i == 0 ==> k == 0
    requires 0 < i ==> IsPriorityCart(floor[..i], k)
    ensures Outranks(EffectiveStatus(floor[i]), EffectiveStatus(floor[k])) ==> IsPriorityCart(floor[..i + 1], i)
    ensures !Outranks(EffectiveStatus(floor[i]), EffectiveStatus(floor[k])) ==> IsPriorityCart(floor[..i + 1], k)
  {
    var p := floor[..i + 1];
    assert p[0] == floor[0];
    assert forall j :: 0 <= j <= i ==> p[j] == floor[j];
    if 0 < i {
      var q := floor[..i];
      assert forall j :: 0 <= j < i ==> q[j] == floor[j];
    }
  }

  /** Two carts both satisfying `IsPriorityCart` are the same position. */
  lemma PriorityCartIsUnique(floor: seq<Cart>, k1: nat, k2: nat)
    requires IsPriorityCart(floor, k1) && IsPriorityCart(floor, k2)
    ensures k1 == k2
  {
    if Rank(EffectiveStatus(floor[0])).Some? {
      assert !Outranks(EffectiveStatus(floor[k1]), EffectiveStatus(floor[k2]));
      assert !Outranks(EffectiveStatus(floor[k2]), EffectiveStatus(floor[k1]));
    }
  }

  /** When the first cart's status is one of the three cart statuses, the
      cart whose name is shown carries exactly the status the card shows. */
  lemma PriorityCartHasFloorStatus(floor: seq<Cart>, k: nat)
    requires IsPriorityCart(floor, k)
    requires IsCartStatus(EffectiveStatus(floor[0]))
    ensures EffectiveStatus(floor[k]) == StatusOf(floor)
  {
    var s := EffectiveStatus(floor[k]);
    assert !Outranks(EffectiveStatus(floor[0]), s);
    if HasStatus(floor, Aberto) {
      var i :| 0 <= i < |floor| && EffectiveStatus(floor[i]) == Aberto;
      assert !Outranks(EffectiveStatus(floor[i]), s);
    } else if HasStatus(floor, Estoque) {
      var i :| 0 <= i < |floor| && EffectiveStatus(floor[i]) == Estoque;
      assert !Outranks(EffectiveStatus(floor[i]), s);
      assert s != Aberto;
    } else {
      assert s != Aberto && s != Estoque;
    }
  }

  /** Without that condition the two can disagree: a first cart whose status
      is outside the table keeps its name on the card of a floor that reads
      open because of another cart. */
  lemma UnknownFirstStatusKeepsItsName()
    ensures
      var floor := [Cart("1", Some("Carrinho A"), "3º andar", Some("manutencao")),
                    Cart("2", Some("Carrinho B"), "3º andar", Some(Aberto))];
      IsPriorityCart(floor, 0) && StatusOf(floor) == Aberto && EffectiveStatus(floor[0]) != Aberto
  {
    var floor := [Cart("1", Some("Carrinho A"), "3º andar", Some("manutencao")),
                  Cart("2", Some("Carrinho B"), "3º andar", Some(Aberto))];
    OpenCartOpensFloor(floor, 1);
  }

  /** Carts marked "vazio" are ignored by the status (the floor reads
      "fechado") but the name shown is the first of them. */
  lemma VazioCartsReadClosed()
    ensures
      var floor := [Cart("1", Some("Carrinho A"), "7º andar", Some(Vazio)),
                    Cart("2", Some("Carrinho B"), "7º andar", Some(Vazio))];
      IsPriorityCart(floor, 0) && StatusOf(floor) == Fechado && EffectiveStatus(floor[0]) == Vazio
  {
    var floor := [Cart("1", Some("Carrinho A"), "7º andar", Some(Vazio)),
                  Cart("2", Some("Carrinho B"), "7º andar", Some(Vazio))];
    assert EffectiveStatus(floor[0]) == Vazio && EffectiveStatus(floor[1]) == Vazio;
    assert !HasStatus(floor, Aberto) && !HasStatus(floor, Estoque);
  }
}
