/** Reading a floor number out of a cart's location and sorting the carts
    into one bucket per floor (`extrairNumeroAndar` and the grouping loop of
    `fetchCarrinhos`). */
module FloorGrouping {
  import opened Decimal
  import opened Carts

  /** The board has one card per floor, floors 1 to 24. */
  const FloorCount: nat := 24

  /** The index of the first digit at or after `i`, or `|s|` if there is none. */
  function FirstDigitFrom(s: string, i: nat): (j: nat)
    requires i <= |s|
    ensures i <= j <= |s|
    ensures forall k :: i <= k < j ==> !IsDigit(s[k])
    ensures j < |s| ==> IsDigit(s[j])
    decreases |s| - i
  {
    if i < |s| && !IsDigit(s[i]) then FirstDigitFrom(s, i + 1) else i
  }

  /** `s[i..j]` is the first maximal run of digits in `s`, which is what
      `s.match(/\d+/)` finds. */
  ghost predicate IsFirstDigitRun(s: string, i: nat, j: nat) {
    i < j <= |s| &&
    (forall k :: 0 <= k < i ==> !IsDigit(s[k])) &&
    (forall k :: i <= k < j ==> IsDigit(s[k])) &&
    (j == |s| || !IsDigit(s[j]))
  }

  /** `extrairNumeroAndar`: the value of the first maximal run of digits, or
      none when the location holds no digit. */
  function FloorNumber(localizacao: string): (r: Option<nat>)
    ensures r.None? <==> forall k :: 0 <= k < |localizacao| ==> !IsDigit(localizacao[k])
    ensures r.Some? ==>
      exists i: nat, j: nat :: IsFirstDigitRun(localizacao, i, j) && AllDigits(localizacao[i..j]) &&
                     r.value == Value(localizacao[i..j])
  {
    var i := FirstDigitFrom(localizacao, 0);
    if i == |localizacao| then None
    else
      var j := RunEnd(localizacao, i);
      assert IsFirstDigitRun(localizacao, i, j);
      Some(Value(localizacao[i..j]))
  }

  /** A string has only one first maximal digit run. */
  lemma FirstDigitRunIsUnique(s: string, i: nat, j: nat, i': nat, j': nat)
    requires IsFirstDigitRun(s, i, j) && IsFirstDigitRun(s, i', j')
    ensures i == i' && j == j'
  {
    assert IsDigit(s[i]) && IsDigit(s[i']);
    assert j < |s| ==> !IsDigit(s[j]);
    assert j' < |s| ==> !IsDigit(s[j']);
  }

  /** The floor number is exactly the value of the first maximal digit run,
      whichever way that run is found. */
  lemma FloorNumberOfFirstRun(s: string, i: nat, j: nat)
    requires IsFirstDigitRun(s, i, j)
    ensures AllDigits(s[i..j]) && FloorNumber(s) == Some(Value(s[i..j]))
  {
    var r := FloorNumber(s);
    var i': nat, j': nat :| IsFirstDigitRun(s, i', j') && AllDigits(s[i'..j']) && r.value == Value(s[i'..j']);
    FirstDigitRunIsUnique(s, i, j, i', j');
  }

  /** A cart that the board places on one of its floors. */
  predicate OnBoard(c: Cart) {
    var andar := FloorNumber(c.localizacao);
    andar.Some? && 1 <= andar.value <= FloorCount
  }

  /** The carts of `carts` whose location names floor `andar`, in input order. */
  function CartsOnFloor(carts: seq<Cart>, andar: nat): seq<Cart> {
    if carts == [] then []
    else
      var last := carts[|carts| - 1];
      CartsOnFloor(carts[..|carts| - 1], andar) +
        (if FloorNumber(last.localizacao) == Some(andar) then [last] else [])
  }

  /** The number of carts the board places on some floor. */
  function OnBoardCount(carts: seq<Cart>): (n: nat)
    ensures n <= |carts|
  {
    if carts == [] then 0
    else OnBoardCount(carts[..|carts| - 1]) + (if OnBoard(carts[|carts| - 1]) then 1 else 0)
  }

  /** The total number of carts held by a table of buckets. */
  function TotalCarts(floors: seq<seq<Cart>>): nat {
    if floors == [] then 0 else TotalCarts(floors[..|floors| - 1]) + |floors[|floors| - 1]|
  }

  /** The grouping loop of `fetchCarrinhos`: 24 empty buckets, then each
      cart in turn pushed onto the bucket of its floor when that floor is
      between 1 and 24. Bucket `f` holds the carts of floor `f + 1`. */
  method GroupByFloor(carts: seq<Cart>) returns (floors: seq<seq<Cart>>)
    ensures |floors| == FloorCount
    ensures forall f :: 0 <= f < FloorCount ==> floors[f] == CartsOnFloor(carts, f + 1)
  {
    var tempAndares := new seq<Cart>[FloorCount](_ => []);
    for i := 0 to |carts|
      invariant forall f :: 0 <= f < FloorCount ==> tempAndares[f] == CartsOnFloor(carts[..i], f + 1)
    {
      var carrinho := carts[i];
      var andar := FloorNumber(carrinho.localizacao);
      assert carts[..i + 1][..i] == carts[..i];
      if andar.Some? && 1 <= andar.value <= FloorCount {
        tempAndares[andar.value - 1] := tempAndares[andar.value - 1] + [carrinho];
      }
    }
    assert carts[..|carts|] == carts;
    floors := tempAndares[..];
  }

  /** The buckets of the board together hold exactly the carts placed on
      some floor, so never more carts than the input. */
  lemma BoardHoldsPlacedCarts(carts: seq<Cart>, floors: seq<seq<Cart>>)
    requires |floors| == FloorCount
    requires forall f :: 0 <= f < FloorCount ==> floors[f] == CartsOnFloor(carts, f + 1)
    ensures TotalCarts(floors) == OnBoardCount(carts) <= |carts|
  {
    assert floors[..FloorCount] == floors;
    TotalOfBuckets(floors, carts, FloorCount);
    OnBoardCountIsBoardSize(carts);
  }

  /** The sum over floors `1 .. hi - 1` of the sizes of their buckets. */
  function BoardSize(carts: seq<Cart>, hi: nat): nat {
    if hi <= 1 then 0 else BoardSize(carts, hi - 1) + |CartsOnFloor(carts, hi - 1)|
  }

  lemma {:induction false} TotalOfBuckets(floors: seq<seq<Cart>>, carts: seq<Cart>, k: nat)
    requires k <= |floors|
    requires forall f :: 0 <= f < k ==> floors[f] == CartsOnFloor(carts, f + 1)
    ensures TotalCarts(floors[..k]) == BoardSize(carts, k + 1)
  {
    if k > 0 {
      assert floors[..k][..k - 1] == floors[..k - 1];
      TotalOfBuckets(floors, carts, k - 1);
    }
  }

  /** One more cart adds one to the board size exactly when its floor is
      below `hi`. */
  lemma {:induction false} BoardSizeSnoc(carts: seq<Cart>, c: Cart, hi: nat)
    ensures BoardSize(carts + [c], hi) ==
      BoardSize(carts, hi) + (if FloorNumber(c.localizacao).Some? && 1 <= FloorNumber(c.localizacao).value < hi then 1 else 0)
  {
    assert (carts + [c])[..|carts + [c]| - 1] == carts;
    if hi > 1 {
      BoardSizeSnoc(carts, c, hi - 1);
    }
  }

  lemma {:induction false} OnBoardCountIsBoardSize(carts: seq<Cart>)
    ensures OnBoardCount(carts) == BoardSize(carts, FloorCount + 1)
  {
    if carts == [] {
      BoardSizeEmpty(FloorCount + 1);
    } else {
      var init := carts[..|carts| - 1];
      assert init + [carts[|carts| - 1]] == carts;
      OnBoardCountIsBoardSize(init);
      BoardSizeSnoc(init, carts[|carts| - 1], FloorCount + 1);
    }
  }

  lemma {:induction false} BoardSizeEmpty(hi: nat)
    ensures BoardSize([], hi) == 0
  {
    if hi > 1 {
      BoardSizeEmpty(hi - 1);
    }
  }

  /** A cart lands in the bucket of floor `andar` exactly when its location
      names that floor; each copy of it in the input is kept. So a cart
      whose location has no digit, or names a floor outside 1..24, is in no
      bucket of the board. */
  lemma {:induction false} CartsOnFloorCount(carts: seq<Cart>, andar: nat, c: Cart)
    ensures multiset(CartsOnFloor(carts, andar))[c] ==
      if FloorNumber(c.localizacao) == Some(andar) then multiset(carts)[c] else 0
  {
    if carts != [] {
      var init := carts[..|carts| - 1];
      assert init + [carts[|carts| - 1]] == carts;
      CartsOnFloorCount(init, andar, c);
    }
  }

  lemma CartsOnFloorMembers(carts: seq<Cart>, andar: nat, c: Cart)
    ensures c in CartsOnFloor(carts, andar) <==> c in carts && FloorNumber(c.localizacao) == Some(andar)
  {
    CartsOnFloorCount(carts, andar, c);
    assert c in CartsOnFloor(carts, andar) <==> multiset(CartsOnFloor(carts, andar))[c] > 0;
    assert c in carts <==> multiset(carts)[c] > 0;
  }

  /** Grouping keeps input order: the bucket of a concatenation is the
      bucket of the first part followed by the bucket of the second. */
  lemma {:induction false} CartsOnFloorAppend(a: seq<Cart>, b: seq<Cart>, andar: nat)
    ensures CartsOnFloor(a + b, andar) == CartsOnFloor(a, andar) + CartsOnFloor(b, andar)
  {
    if b == [] {
      assert a + b == a;
    } else {
      var binit := b[..|b| - 1];
      assert (a + b)[..|a + b| - 1] == a + binit;
      assert b[..|b| - 1] == binit;
      CartsOnFloorAppend(a, binit, andar);
    }
  }

  /** "Floor 12B" is on floor 12: letters around the run do not matter. */
  lemma FloorNumberOfFloor12B()
    ensures FloorNumber("Floor 12B") == Some(12)
  {
    var s := "Floor 12B";
    assert forall k :: 0 <= k < 6 ==> !IsDigit(s[k]);
    assert IsFirstDigitRun(s, 6, 8);
    FloorNumberOfFirstRun(s, 6, 8);
    assert s[6..8] == "12";
  }

  /** "5º andar" is on floor 5. */
  lemma FloorNumberOfQuintoAndar()
    ensures FloorNumber("5º andar") == Some(5)
  {
    var s := "5º andar";
    assert IsFirstDigitRun(s, 0, 1);
    FloorNumberOfFirstRun(s, 0, 1);
    assert s[0..1] == "5";
  }

  /** Only the first run counts: "Ala 3, sala 14" is on floor 3. */
  lemma FloorNumberOfFirstOfTwoRuns()
    ensures FloorNumber("Ala 3, sala 14") == Some(3)
  {
    var s := "Ala 3, sala 14";
    assert forall k :: 0 <= k < 4 ==> !IsDigit(s[k]);
    assert IsFirstDigitRun(s, 4, 5);
    FloorNumberOfFirstRun(s, 4, 5);
    assert s[4..5] == "3";
  }

  /** A location without digits is on no floor. */
  lemma FloorNumberOfNoDigits()
    ensures FloorNumber("no digits") == None
  {
    var s := "no digits";
    assert forall k :: 0 <= k < |s| ==> !IsDigit(s[k]);
  }
}
