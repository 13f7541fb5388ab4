/** The draft-selection protocol's pure parts: who has picked, whose turn
    it is, which positions are taken, and the final draft order. */
module Draft {
  import opened Wrappers
  import opened Models
  import opened Sorting
  import opened Scoring

  /** A player has picked when the stored position is truthy in Python's
      sense, so a stored 0 counts as not yet picked. */
  predicate HasPicked(p: Player) {
    p.draftPosition.Some? && p.draftPosition.value != 0
  }

  /** Every player has picked. */
  predicate AllSelected(ps: seq<Player>) {
    forall i :: 0 <= i < |ps| ==> HasPicked(ps[i])
  }

  /** No player holds a draft position at all. */
  predicate NoPositions(ps: seq<Player>) {
    forall i :: 0 <= i < |ps| ==> ps[i].draftPosition.None?
  }

  /** Index, in the selection order, of the first player still to pick. */
  function FirstUnpicked(order: seq<Player>): (r: Option<nat>)
    ensures r.Some? ==> r.value < |order| && !HasPicked(order[r.value]) &&
                        forall j :: 0 <= j < r.value ==> HasPicked(order[j])
    ensures r.None? <==> AllSelected(order)
  {
    if order == [] then None
    else if !HasPicked(order[0]) then Some(0)
    else match FirstUnpicked(order[1..])
      case None => None
      case Some(k) => Some(k + 1)
  }

  /** The search loop of the draft-selection view: the current picker and
      its index in the selection order (index 0 when everyone has picked). */
  method FindCurrentPicker(order: seq<Player>) returns (picker: Option<Player>, index: nat)
    ensures picker.Some? ==> index < |order| && picker.value == order[index] && !HasPicked(order[index]) &&
                             forall j :: 0 <= j < index ==> HasPicked(order[j])
    ensures picker.None? ==> index == 0 && AllSelected(order)
    ensures picker.Some? <==> FirstUnpicked(order) == Some(index)
  {
    picker, index := None, 0;
    var i := 0;
    while i < |order|
      invariant 0 <= i <= |order|
      invariant forall j :: 0 <= j < i ==> HasPicked(order[j])
    {
      if !HasPicked(order[i]) {
        picker, index := Some(order[i]), i;
        break;
      }
      i := i + 1;
    }
  }

  /** Each position somebody has picked, mapped to the picker's name;
      a later player overwrites an earlier one holding the same key. */
  function TakenPositions(ps: seq<Player>): (taken: map<int, string>)
    ensures forall i :: 0 <= i < |ps| && HasPicked(ps[i]) ==> ps[i].draftPosition.value in taken
    ensures forall pos :: pos in taken ==> exists i :: 0 <= i < |ps| && HasPicked(ps[i]) &&
                                                      ps[i].draftPosition == Some(pos) && taken[pos] == ps[i].name
  {
    if ps == [] then map[]
    else
      var last := ps[|ps| - 1];
      var earlier := TakenPositions(ps[..|ps| - 1]);
      if HasPicked(last) then earlier[last.draftPosition.value := last.name] else earlier
  }

  /** Distinct positions make the taken-positions table exact: each held
      position names its holder. */
  lemma TakenPositionsExact(ps: seq<Player>, i: nat)
    requires DistinctPositions(ps) && i < |ps| && HasPicked(ps[i])
    ensures TakenPositions(ps)[ps[i].draftPosition.value] == ps[i].name
  {
    var taken := TakenPositions(ps);
    var pos := ps[i].draftPosition.value;
    var j :| 0 <= j < |ps| && HasPicked(ps[j]) && ps[j].draftPosition == Some(pos) && taken[pos] == ps[j].name;
    assert j == i;
  }

  /** The players who have picked, in table order. */
  function Picked(ps: seq<Player>): (r: seq<Player>)
    ensures forall x :: x in r <==> x in ps && HasPicked(x)
    ensures multiset(r) <= multiset(ps)
  {
    if ps == [] then []
    else
      assert ps == [ps[0]] + ps[1..];
      (if HasPicked(ps[0]) then [ps[0]] else []) + Picked(ps[1..])
  }

  /** The key that orders players by their stored draft position. */
  function PositionKey(p: Player): real
  {
    if p.draftPosition.Some? then p.draftPosition.value as real else 0.0
  }

  /** The draft order of the results page: the players who have picked,
      by position. */
  function DraftOrder(ps: seq<Player>): seq<Player>
  {
    SortBy(Picked(ps), PositionKey)
  }

  lemma DraftOrderIsSortedByPosition(ps: seq<Player>)
    ensures multiset(DraftOrder(ps)) == multiset(Picked(ps))
    ensures forall x :: x in DraftOrder(ps) <==> x in ps && HasPicked(x)
    ensures forall i, j :: 0 <= i < j < |DraftOrder(ps)| ==>
      HasPicked(DraftOrder(ps)[i]) && HasPicked(DraftOrder(ps)[j]) &&
      DraftOrder(ps)[i].draftPosition.value <= DraftOrder(ps)[j].draftPosition.value
  {
    var d := DraftOrder(ps);
    SortByIsStableSort(Picked(ps), PositionKey);
    forall x ensures x in d <==> x in ps && HasPicked(x) {
      assert x in d <==> x in multiset(d);
    }
    forall i, j | 0 <= i < j < |d|
      ensures HasPicked(d[i]) && HasPicked(d[j]) && d[i].draftPosition.value <= d[j].draftPosition.value
    {
      assert d[i] in d && d[j] in d;
      assert PositionKey(d[i]) <= PositionKey(d[j]);
    }
  }

  /** Everyone has picked exactly when the selection order has no current
      picker. */
  lemma AllSelectedIffNoPicker(ps: seq<Player>, target: real)
    ensures AllSelected(ps) <==> FirstUnpicked(Ranked(ps, target)).None?
  {
    var order := Ranked(ps, target);
    RankedIsStableSort(ps, target);
    if AllSelected(ps) {
      forall j | 0 <= j < |order| ensures HasPicked(order[j]) {
        assert order[j] in multiset(ps);
      }
    }
    if AllSelected(order) {
      forall j | 0 <= j < |ps| ensures HasPicked(ps[j]) {
        assert ps[j] in multiset(order);
      }
    }
  }

  /** The update a successful pick makes: the player with `id` gets `pos`. */
  function AssignPosition(id: int, pos: int): Player -> Player
  {
    (p: Player) => if p.id == id then p.(draftPosition := Some(pos)) else p
  }

  /** A pick does not reorder the selection order: only the picking
      player's entry changes, and it stays where it was. */
  lemma PickKeepsSelectionOrder(ps: seq<Player>, k: nat, pos: int, target: real)
    requires UniqueIds(ps) && k < |ps|
    ensures Ranked(ps[k := ps[k].(draftPosition := Some(pos))], target) ==
            MapSeq(AssignPosition(ps[k].id, pos), Ranked(ps, target))
  {
    var f := AssignPosition(ps[k].id, pos);
    assert ps[k := ps[k].(draftPosition := Some(pos))] == MapSeq(f, ps);
    forall y ensures DistanceTo(target)(f(y)) == DistanceTo(target)(y) {
    }
    SortByMap(ps, f, DistanceTo(target));
  }

  /** Player `id` is the first in the selection order still to pick. */
  predicate IsCurrentPicker(ps: seq<Player>, target: real, id: int) {
    var order := Ranked(ps, target);
    var c := FirstUnpicked(order);
    c.Some? && order[c.value].id == id
  }

  /** Before anyone has picked, the winner is the one whose turn it is. */
  lemma WinnerPicksFirst(ps: seq<Player>)
    requires ps != [] && NoPositions(ps)
    ensures FirstUnpicked(Ranked(ps, Target(ps))) == Some(0)
    ensures IsCurrentPicker(ps, Target(ps), ps[WinnerIndex(ps)].id)
  {
    WinnerLeadsRanking(ps);
  }
}
