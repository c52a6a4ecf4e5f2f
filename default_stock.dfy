/** The default-stock editor ("estoque padrão"): editing one field of one
    item of one drawer of the template record (`handleItemChange`). */
module DefaultStock {
  import opened Decimal

  /** An item of a drawer. `quantidade` is whatever `parseInt` last gave,
      so it can be NaN after an edit. */
  datatype Item = Item(id: string, nome: string, quantidade: ParsedInt)

  /** The two fields the editor's inputs change. */
  datatype Field = Nome | Quantidade

  /** A drawer ("gaveta") of the record: its item list is an array the
      edit writes into. */
  datatype Gaveta = Gaveta(id: string, nome: string, itens: array<Item>)

  /** The value of a drawer, as a snapshot of its item array. */
  datatype Drawer = Drawer(id: string, nome: string, itens: seq<Item>)

  /** `findIndex(g => g.id === id)` over the drawers: the first position with
      that id, or -1. */
  function DrawerIndex(ds: seq<Drawer>, id: string): (k: int)
    ensures -1 <= k < |ds|
    ensures k == -1 <==> forall d :: 0 <= d < |ds| ==> ds[d].id != id
    ensures k >= 0 ==> ds[k].id == id && forall d :: 0 <= d < k ==> ds[d].id != id
  {
    if ds == [] then -1
    else if ds[0].id == id then 0
    else
      var k := DrawerIndex(ds[1..], id);
      if k == -1 then -1 else k + 1
  }

  /** `findIndex(i => i.id === id)` over the items of a drawer. */
  function ItemIndex(items: seq<Item>, id: string): (k: int)
    ensures -1 <= k < |items|
    ensures k == -1 <==> forall j :: 0 <= j < |items| ==> items[j].id != id
    ensures k >= 0 ==> items[k].id == id && forall j :: 0 <= j < k ==> items[j].id != id
  {
    if items == [] then -1
    else if items[0].id == id then 0
    else
      var k := ItemIndex(items[1..], id);
      if k == -1 then -1 else k + 1
  }

  /** `item[field] = field === 'quantidade' ? parseInt(value, 10) : value`. */
  function SetField(item: Item, field: Field, value: string): (r: Item)
    ensures r.id == item.id
    ensures field == Nome ==> r.nome == value && r.quantidade == item.quantidade
    ensures field == Quantidade ==> r.quantidade == ParseInt(value) && r.nome == item.nome
  {
    match field
    case Nome => item.(nome := value)
    case Quantidade => item.(quantidade := ParseInt(value))
  }

  /** The template after the edit, on values: the first item with `itemId`
      in the first drawer with `gavetaId` gets the new field value; when
      either lookup fails nothing changes. */
  function ChangeItem(ds: seq<Drawer>, gavetaId: string, itemId: string, field: Field, value: string): (r: seq<Drawer>)
    ensures |r| == |ds|
    ensures forall d :: 0 <= d < |ds| ==>
      r[d].id == ds[d].id && r[d].nome == ds[d].nome && |r[d].itens| == |ds[d].itens| &&
      forall j :: 0 <= j < |ds[d].itens| ==> r[d].itens[j].id == ds[d].itens[j].id
    ensures forall d, j :: 0 <= d < |ds| && 0 <= j < |ds[d].itens| && r[d].itens[j] != ds[d].itens[j] ==>
      d == DrawerIndex(ds, gavetaId) && j == ItemIndex(ds[d].itens, itemId)
  {
    var g := DrawerIndex(ds, gavetaId);
    if g == -1 then ds
    else
      var i := ItemIndex(ds[g].itens, itemId);
      if i == -1 then ds
      else ds[g := ds[g].(itens := ds[g].itens[i := SetField(ds[g].itens[i], field, value)])]
  }

  /** With no drawer of that id, the edit leaves the template as it was. */
  lemma ChangeItemMissingDrawer(ds: seq<Drawer>, gavetaId: string, itemId: string, field: Field, value: string)
    requires forall d :: 0 <= d < |ds| ==> ds[d].id != gavetaId
    ensures ChangeItem(ds, gavetaId, itemId, field, value) == ds
  {
  }

  /** With the drawer found but no item of that id in it, the edit leaves
      the template as it was; a later drawer with the same id is never
      searched. */
  lemma ChangeItemMissingItem(ds: seq<Drawer>, g: nat, gavetaId: string, itemId: string, field: Field, value: string)
    requires g < |ds| && ds[g].id == gavetaId && forall d :: 0 <= d < g ==> ds[d].id != gavetaId
    requires forall j :: 0 <= j < |ds[g].itens| ==> ds[g].itens[j].id != itemId
    ensures ChangeItem(ds, gavetaId, itemId, field, value) == ds
  {
    assert DrawerIndex(ds, gavetaId) == g;
  }

  /** With both found, exactly the named field of that one item changes:
      every other item and drawer, the drawers' ids and names, the item's
      id, and the number and order of drawers and items stay as they were. */
  lemma ChangeItemFound(ds: seq<Drawer>, g: nat, i: nat, gavetaId: string, itemId: string, field: Field, value: string)
    requires g < |ds| && ds[g].id == gavetaId && forall d :: 0 <= d < g ==> ds[d].id != gavetaId
    requires i < |ds[g].itens| && ds[g].itens[i].id == itemId
    requires forall j :: 0 <= j < i ==> ds[g].itens[j].id != itemId
    ensures
      var r := ChangeItem(ds, gavetaId, itemId, field, value);
      var before := ds[g].itens[i];
      var after := r[g].itens[i];
      |r| == |ds| &&
      (forall d :: 0 <= d < |ds| && d != g ==> r[d] == ds[d]) &&
      r[g].id == ds[g].id && r[g].nome == ds[g].nome &&
      |r[g].itens| == |ds[g].itens| &&
      (forall j :: 0 <= j < |ds[g].itens| && j != i ==> r[g].itens[j] == ds[g].itens[j]) &&
      after.id == before.id &&
      (field == Nome ==> after == before.(nome := value)) &&
      (field == Quantidade ==> after == before.(quantidade := ParseInt(value)))
  {
    assert DrawerIndex(ds, gavetaId) == g;
    assert ItemIndex(ds[g].itens, itemId) == i;
  }

  /** A quantity typed as a number's digits is stored as that number;
      one with no leading digits is stored as NaN. */
  lemma ChangeQuantityStoresNumber(ds: seq<Drawer>, g: nat, i: nat, gavetaId: string, itemId: string, n: nat)
    requires g < |ds| && ds[g].id == gavetaId && forall d :: 0 <= d < g ==> ds[d].id != gavetaId
    requires i < |ds[g].itens| && ds[g].itens[i].id == itemId
    requires forall j :: 0 <= j < i ==> ds[g].itens[j].id != itemId
    ensures ChangeItem(ds, gavetaId, itemId, Quantidade, Digits(n))[g].itens[i].quantidade == Int(n)
    ensures ChangeItem(ds, gavetaId, itemId, Quantidade, "")[g].itens[i].quantidade == NaN
  {
    ChangeItemFound(ds, g, i, gavetaId, itemId, Quantidade, Digits(n));
    ChangeItemFound(ds, g, i, gavetaId, itemId, Quantidade, "");
    ParseIntRoundTrip(n);
  }

  /** The edit never changes an id, so every later lookup finds the same
      positions as before. */
  lemma ChangeItemKeepsLookups(ds: seq<Drawer>, gavetaId: string, itemId: string, field: Field, value: string, gid: string, iid: string)
    ensures
      var r := ChangeItem(ds, gavetaId, itemId, field, value);
      |r| == |ds| && DrawerIndex(r, gid) == DrawerIndex(ds, gid) &&
      forall d :: 0 <= d < |ds| ==> |r[d].itens| == |ds[d].itens| && ItemIndex(r[d].itens, iid) == ItemIndex(ds[d].itens, iid)
  {
    var r := ChangeItem(ds, gavetaId, itemId, field, value);
    forall d | 0 <= d < |ds|
      ensures |r[d].itens| == |ds[d].itens| && ItemIndex(r[d].itens, iid) == ItemIndex(ds[d].itens, iid)
    {
      SameIdsSameItemIndex(r[d].itens, ds[d].itens, iid);
    }
    SameIdsSameDrawerIndex(r, ds, gid);
  }

  lemma SameIdsSameDrawerIndex(a: seq<Drawer>, b: seq<Drawer>, id: string)
    requires |a| == |b| && forall d :: 0 <= d < |a| ==> a[d].id == b[d].id
    ensures DrawerIndex(a, id) == DrawerIndex(b, id)
  {
    var ka, kb := DrawerIndex(a, id), DrawerIndex(b, id);
    assert ka != -1 ==> b[ka].id == id;
    assert kb != -1 ==> a[kb].id == id;
  }

  lemma SameIdsSameItemIndex(a: seq<Item>, b: seq<Item>, id: string)
    requires |a| == |b| && forall j :: 0 <= j < |a| ==> a[j].id == b[j].id
    ensures ItemIndex(a, id) == ItemIndex(b, id)
  {
    var ka, kb := ItemIndex(a, id), ItemIndex(b, id);
    assert ka != -1 ==> b[ka].id == id;
    assert kb != -1 ==> a[kb].id == id;
  }

  /** Repeating an edit changes nothing more. */
  lemma ChangeItemIdempotent(ds: seq<Drawer>, gavetaId: string, itemId: string, field: Field, value: string)
    ensures
      var r := ChangeItem(ds, gavetaId, itemId, field, value);
      ChangeItem(r, gavetaId, itemId, field, value) == r
  {
    var r := ChangeItem(ds, gavetaId, itemId, field, value);
    ChangeItemKeepsLookups(ds, gavetaId, itemId, field, value, gavetaId, itemId);
    var g := DrawerIndex(ds, gavetaId);
    if g != -1 {
      var i := ItemIndex(ds[g].itens, itemId);
      assert ItemIndex(r[g].itens, itemId) == i;
      if i != -1 {
        var x := r[g].itens[i];
        assert SetField(x, field, value) == x;
        assert r[g].(itens := r[g].itens[i := x]) == r[g];
      }
    }
  }

  /** `findIndex` over the drawer array. */
  method FindGaveta(gavetas: array<Gaveta>, gavetaId: string) returns (k: int)
    ensures -1 <= k < gavetas.Length
    ensures k == -1 <==> forall d :: 0 <= d < gavetas.Length ==> gavetas[d].id != gavetaId
    ensures k >= 0 ==> gavetas[k].id == gavetaId && forall d :: 0 <= d < k ==> gavetas[d].id != gavetaId
  {
    for d := 0 to gavetas.Length
      invariant forall e :: 0 <= e < d ==> gavetas[e].id != gavetaId
    {
      if gavetas[d].id == gavetaId {
        return d;
      }
    }
    return -1;
  }

  /** `findIndex` over a drawer's item array. */
  method FindItem(itens: array<Item>, itemId: string) returns (k: int)
    ensures -1 <= k < itens.Length
    ensures k == -1 <==> forall j :: 0 <= j < itens.Length ==> itens[j].id != itemId
    ensures k >= 0 ==> itens[k].id == itemId && forall j :: 0 <= j < k ==> itens[j].id != itemId
  {
    for j := 0 to itens.Length
      invariant forall e :: 0 <= e < j ==> itens[e].id != itemId
    {
      if itens[j].id == itemId {
        return j;
      }
    }
    return -1;
  }

  /** The default-stock record held by the editor page. */
  class EstoquePadrao {
    var gavetas: array<Gaveta>

    /** Records read from the server share no arrays: each drawer has an
        item array of its own. */
    ghost predicate Valid()
      reads this, gavetas
    {
      forall d, e :: 0 <= d < e < gavetas.Length ==> gavetas[d].itens != gavetas[e].itens
    }

    ghost function ItemArrays(): set<array<Item>>
      reads this, gavetas
    {
      set d | 0 <= d < gavetas.Length :: gavetas[d].itens
    }

    /** The record's value: its drawers with their current items. */
    ghost function Snapshot(): (s: seq<Drawer>)
      reads this, gavetas, ItemArrays()
      ensures |s| == gavetas.Length
      ensures forall d :: 0 <= d < gavetas.Length ==>
        s[d] == Drawer(gavetas[d].id, gavetas[d].nome, gavetas[d].itens[..])
    {
      seq(gavetas.Length, d requires 0 <= d < gavetas.Length reads this, gavetas, ItemArrays() =>
        Drawer(gavetas[d].id, gavetas[d].nome, gavetas[d].itens[..]))
    }

    constructor (drawers: array<Gaveta>)
      requires forall d, e :: 0 <= d < e < drawers.Length ==> drawers[d].itens != drawers[e].itens
      ensures gavetas == drawers && Valid()
    {
      gavetas := drawers;
    }

    /** `handleItemChange`: find the drawer by id, then the item by id in it,
        and write the field into that item; do nothing when either lookup
        fails. Only the found drawer's item array is written. */
    method HandleItemChange(gavetaId: string, itemId: string, field: Field, value: string)
      requires Valid()
      modifies ItemArrays()
      ensures Valid()
      ensures Snapshot() == ChangeItem(old(Snapshot()), gavetaId, itemId, field, value)
    {
      ghost var before := Snapshot();
      var gavetaIndex := FindGaveta(gavetas, gavetaId);
      assert gavetaIndex == DrawerIndex(before, gavetaId);
      if gavetaIndex != -1 {
        var itens := gavetas[gavetaIndex].itens;
        var itemIndex := FindItem(itens, itemId);
        assert itemIndex == ItemIndex(before[gavetaIndex].itens, itemId);
        if itemIndex != -1 {
          itens[itemIndex] := SetField(itens[itemIndex], field, value);
          assert forall d :: 0 <= d < gavetas.Length && d != gavetaIndex ==> gavetas[d].itens != itens;
        }
      }
    }
  }
}
