// The move the built-in opponent chooses, as a function of the board:
// win now, else block, else the centre, else a cell picked at random.

module Heuristic {
  import opened Rules

  /** Every cell of line `k` holds `m` (the opponent's test; unlike
      `LineComplete` it names the mark). */
  predicate AllOf(b: Board, k: nat, m: Mark)
    requires k < |Lines|
  {
    var (i, j, l) := Lines[k];
    b[i] == m && b[j] == m && b[l] == m
  }

  predicate SomeLineAllOf(b: Board, m: Mark) {
    exists k :: 0 <= k < |Lines| && AllOf(b, k, m)
  }

  /** Putting `m` on cell `i` as a trial leaves some line all `m`. */
  predicate Completes(b: Board, i: Cell, m: Mark) {
    SomeLineAllOf(b[i := m], m)
  }

  /** Some empty cell would complete a line of `m`. */
  predicate CanComplete(b: Board, m: Mark) {
    exists i: Cell :: b[i] == Empty && Completes(b, i, m)
  }

  /** `c` is the smallest empty cell that completes a line of `m`. */
  predicate FirstCompletingCell(b: Board, c: Cell, m: Mark) {
    b[c] == Empty && Completes(b, c, m) &&
    forall j: Cell :: j < c && b[j] == Empty ==> !Completes(b, j, m)
  }

  predicate Ascending(s: seq<Cell>) {
    forall j, k :: 0 <= j < k < |s| ==> s[j] < s[k]
  }

  /** The empty cells below `n`, in ascending order. */
  function EmptyCellsBelow(b: Board, n: nat): (r: seq<Cell>)
    requires n <= 9
    ensures forall i: Cell :: i in r <==> i < n && b[i] == Empty
    ensures Ascending(r)
    ensures forall j :: 0 <= j < |r| ==> r[j] < n
  {
    if n == 0 then []
    else EmptyCellsBelow(b, n - 1) + (if b[n - 1] == Empty then [n - 1] else [])
  }

  /** The list of available moves: every empty cell, in ascending order. */
  function EmptyCells(b: Board): (r: seq<Cell>)
    ensures forall i: Cell :: i in r <==> b[i] == Empty
    ensures Ascending(r)
    ensures r == [] <==> IsFull(b)
  {
    var r := EmptyCellsBelow(b, 9);
    assert r != [] ==> r[0] in r;
    r
  }

  /** The first candidate, in list order, whose trial placement of `m`
      completes a line; for an ascending list, the smallest one. */
  function FirstCompleting(b: Board, cands: seq<Cell>, m: Mark): (r: Option<Cell>)
    requires Ascending(cands)
    ensures r.Some? ==> r.value in cands && Completes(b, r.value, m)
    ensures r.Some? ==> forall c :: c in cands && c < r.value ==> !Completes(b, c, m)
    ensures r.None? <==> forall c :: c in cands ==> !Completes(b, c, m)
  {
    if cands == [] then None
    else if Completes(b, cands[0], m) then Some(cands[0])
    else FirstCompleting(b, cands[1..], m)
  }

  /** The cell the opponent marks with O, tier by tier; `r` is the
      position in the list of available moves that the random tier draws. */
  function AiChoice(b: Board, r: nat): (c: Cell)
    requires r < |EmptyCells(b)|
    ensures b[c] == Empty
  {
    var avail := EmptyCells(b);
    match FirstCompleting(b, avail, O)
    case Some(i) => i
    case None =>
      match FirstCompleting(b, avail, X)
      case Some(i) => i
      case None => if b[4] == Empty then 4 else avail[r]
  }

  /** The scan over the available moves finds the smallest empty cell that
      completes a line, and finds one exactly when one exists. */
  lemma FirstCompletingIsSmallest(b: Board, m: Mark)
    ensures FirstCompleting(b, EmptyCells(b), m).Some? <==> CanComplete(b, m)
    ensures FirstCompleting(b, EmptyCells(b), m).Some? ==>
              FirstCompletingCell(b, FirstCompleting(b, EmptyCells(b), m).value, m)
  {
    var avail := EmptyCells(b);
    var r := FirstCompleting(b, avail, m);
    if CanComplete(b, m) {
      var i: Cell :| b[i] == Empty && Completes(b, i, m);
      assert i in avail;
    }
  }

  /** The four tiers, in order: win now, block, centre, random. */
  lemma AiChoiceTiers(b: Board, r: nat)
    requires r < |EmptyCells(b)|
    ensures CanComplete(b, O) ==> FirstCompletingCell(b, AiChoice(b, r), O)
    ensures !CanComplete(b, O) && CanComplete(b, X) ==> FirstCompletingCell(b, AiChoice(b, r), X)
    ensures !CanComplete(b, O) && !CanComplete(b, X) && b[4] == Empty ==> AiChoice(b, r) == 4
    ensures !CanComplete(b, O) && !CanComplete(b, X) && b[4] != Empty ==> AiChoice(b, r) == EmptyCells(b)[r]
  {
    FirstCompletingIsSmallest(b, O);
    FirstCompletingIsSmallest(b, X);
  }

  /** When the opponent can win at once, its move completes a line. */
  lemma AiTakesWin(b: Board, r: nat)
    requires r < |EmptyCells(b)|
    requires CanComplete(b, O)
    ensures HasWin(b[AiChoice(b, r) := O])
  {
    AiChoiceTiers(b, r);
    var after := b[AiChoice(b, r) := O];
    var k :| 0 <= k < |Lines| && AllOf(after, k, O);
    assert LineComplete(after, k);
  }

  /** Line `k` holds `m` twice and its third cell is free. */
  predicate Threat(b: Board, k: nat, m: Mark)
    requires k < |Lines|
  {
    var (i, j, l) := Lines[k];
    (b[i] == Empty && b[j] == m && b[l] == m) ||
    (b[i] == m && b[j] == Empty && b[l] == m) ||
    (b[i] == m && b[j] == m && b[l] == Empty)
  }

  /** Cell `i` is one of the three cells of line `k`. */
  predicate OnLine(i: Cell, k: nat)
    requires k < |Lines|
  {
    var (x, y, z) := Lines[k];
    i == x || i == y || i == z
  }

  /** The three cells of every line are distinct. */
  lemma LineCellsDistinct(k: nat)
    requires k < |Lines|
    ensures Lines[k].0 != Lines[k].1 && Lines[k].0 != Lines[k].2 && Lines[k].1 != Lines[k].2
  {
  }

  /** While no line is complete, a trial `m` on a free cell completes a
      line exactly when that cell is the free cell of a line that holds
      `m` twice. */
  lemma CompletesIffThreat(b: Board, i: Cell, m: Mark)
    requires m != Empty && !HasWin(b) && b[i] == Empty
    ensures Completes(b, i, m) <==> exists k :: 0 <= k < |Lines| && Threat(b, k, m) && OnLine(i, k)
  {
    if Completes(b, i, m) {
      var k :| 0 <= k < |Lines| && AllOf(b[i := m], k, m);
      LineCellsDistinct(k);
      assert !LineComplete(b, k);
      assert Threat(b, k, m) && OnLine(i, k);
    }
    if k :| 0 <= k < |Lines| && Threat(b, k, m) && OnLine(i, k) {
      LineCellsDistinct(k);
      assert AllOf(b[i := m], k, m);
    }
  }

  /** While no line is complete, some trial `m` completes a line exactly
      when some line holds `m` twice with its third cell free. */
  lemma CanCompleteIffThreat(b: Board, m: Mark)
    requires m != Empty && !HasWin(b)
    ensures CanComplete(b, m) <==> exists k :: 0 <= k < |Lines| && Threat(b, k, m)
  {
    if CanComplete(b, m) {
      var i: Cell :| b[i] == Empty && Completes(b, i, m);
      CompletesIffThreat(b, i, m);
    }
    if k :| 0 <= k < |Lines| && Threat(b, k, m) {
      var (x, y, z) := Lines[k];
      var i: Cell := if b[x] == Empty then x else if b[y] == Empty then y else z;
      CompletesIffThreat(b, i, m);
    }
  }
}
