/**
 * The drawings table of the raffle admin: drawings ("sorteos") with their nested prize lists,
 * and the functions the create/update/delete hooks hand to the query cache for the key
 * `['drawings']`. Each takes the cached list, absent when nothing is cached yet, and returns the new one.
 */
module Drawings {
  import opened Wrappers
  import opened Seqs
  import opened Decimal

  datatype Prize = Prize(
    id: string,
    drawingId: string,
    name: string,
    specifications: string,
    commercialValuation: string)

  /** `drawDate` is a point in time, kept abstract as an integer; `subRows` may be absent. */
  datatype Drawing = Drawing(
    id: string,
    raffleId: string,
    drawTypeId: string,
    drawDate: int,
    description: string,
    subRows: Option<seq<Prize>>)

  /** A table row holds either a drawing or one of its prizes. */
  datatype RowData = DrawingRow(drawing: Drawing) | PrizeRow(prize: Prize)

  /** The own property names of a row object; an absent `subRows` is not a property. */
  function FieldNames(row: RowData): set<string> {
    match row
    case DrawingRow(d) =>
      {"id", "raffleId", "drawTypeId", "drawDate", "description"} + (if d.subRows.Some? then {"subRows"} else {})
    case PrizeRow(_) =>
      {"id", "drawingId", "name", "specifications", "commercialValuation"}
  }

  /** `isDrawing`: the row has a `raffleId` property, which is exactly when it holds a drawing. */
  function IsDrawing(row: RowData): (r: bool)
    ensures r <==> row.DrawingRow?
  {
    "raffleId" in FieldNames(row)
  }

  /** `isPrize`: the row has a `drawingId` property, which is exactly when it holds a prize. */
  function IsPrize(row: RowData): (r: bool)
    ensures r <==> row.PrizeRow?
    ensures r <==> !IsDrawing(row)
  {
    "drawingId" in FieldNames(row)
  }

  /** `prevDrawings: Drawing[] = []`: an absent cache entry reads as the empty list. */
  function Cached(cache: Option<seq<Drawing>>): seq<Drawing> {
    cache.GetOr([])
  }

  /** `drawing.subRows || []`. */
  function Prizes(d: Drawing): seq<Prize> {
    d.subRows.GetOr([])
  }

  /**
   * `handleCreateSubRow`: for a drawing row at table index `index`, the position of the new
   * row and the blank prize it starts from; nothing for a prize row.
   */
  function CreateSubRow(row: RowData, index: nat): (r: Option<(nat, Prize)>)
    ensures r.Some? <==> IsDrawing(row)
    ensures r.Some? ==> r.value.0 == index + 1
    ensures r.Some? ==> var p := r.value.1;
      p.drawingId == row.drawing.id && p.id == "" && p.name == "" &&
      p.specifications == "" && p.commercialValuation == ""
  {
    if !IsDrawing(row) then None
    else Some((index + 1, Prize("", row.drawing.id, "", "", "")))
  }

  /* ---------------------------------------------------------------- drawings */

  /** The id the create hook gives a new drawing: the decimal string of the new list length. */
  function NewDrawingId(cache: Option<seq<Drawing>>): string {
    ToDecimal(|Cached(cache)| + 1)
  }

  /** `onMutate` of the create-drawing hook: append the drawing under a fresh positional id. */
  function CreateDrawing(cache: Option<seq<Drawing>>, newDrawing: Drawing): (r: seq<Drawing>)
    ensures |r| == |Cached(cache)| + 1
    ensures r[..|r| - 1] == Cached(cache)
    ensures r[|r| - 1].(id := newDrawing.id) == newDrawing
    ensures Canonical(r[|r| - 1].id) && ValueOf(r[|r| - 1].id) == |r|
  {
    var prev := Cached(cache);
    ValueOfToDecimal(|prev| + 1);
    ToDecimalCanonical(|prev| + 1);
    prev + [newDrawing.(id := ToDecimal(|prev| + 1))]
  }

  /** The contract of `CreateDrawing` pins the id: it is exactly `toString` of the new length. */
  lemma CreateDrawingId(cache: Option<seq<Drawing>>, newDrawing: Drawing)
    ensures CreateDrawing(cache, newDrawing)[|Cached(cache)|].id == ToDecimal(|Cached(cache)| + 1)
  {
    var r := CreateDrawing(cache, newDrawing);
    ToDecimalOfValue(r[|r| - 1].id);
  }

  /** `prevDrawings.map(d => d.id === updated.id ? updated : d)`. */
  function ReplaceDrawing(ds: seq<Drawing>, updated: Drawing): (r: seq<Drawing>)
    ensures |r| == |ds|
    ensures forall i :: 0 <= i < |ds| ==> r[i] == if ds[i].id == updated.id then updated else ds[i]
  {
    seq(|ds|, i requires 0 <= i < |ds| => if ds[i].id == updated.id then updated else ds[i])
  }

  /** `onMutate` of the update-drawing hook. */
  function UpdateDrawing(cache: Option<seq<Drawing>>, updated: Drawing): (r: seq<Drawing>)
    ensures |r| == |Cached(cache)|
    ensures forall i :: 0 <= i < |r| ==> r[i].id == Cached(cache)[i].id
    ensures forall i :: 0 <= i < |r| ==>
      r[i] == if Cached(cache)[i].id == updated.id then updated else Cached(cache)[i]
  {
    ReplaceDrawing(Cached(cache), updated)
  }

  /** `onMutate` of the delete-drawing hook: `prevDrawings.filter(d => d.id !== drawingId)`. */
  function DeleteDrawing(cache: Option<seq<Drawing>>, drawingId: string): (r: seq<Drawing>)
    ensures |r| <= |Cached(cache)|
  {
    Filter(Cached(cache), (d: Drawing) => d.id != drawingId)
  }

  /** Deleting removes every drawing with the id and keeps each other drawing as often as it occurred. */
  lemma DeleteDrawingContents(cache: Option<seq<Drawing>>, drawingId: string, d: Drawing)
    ensures d in DeleteDrawing(cache, drawingId) <==> d in Cached(cache) && d.id != drawingId
    ensures d.id != drawingId ==>
      multiset(DeleteDrawing(cache, drawingId))[d] == multiset(Cached(cache))[d]
  {
    FilterMembership(Cached(cache), (d: Drawing) => d.id != drawingId, d);
    FilterCount(Cached(cache), (d: Drawing) => d.id != drawingId, d);
  }

  /** Deleting works part by part, so the remaining drawings stay in order. */
  lemma DeleteDrawingKeepsOrder(front: seq<Drawing>, back: seq<Drawing>, drawingId: string)
    ensures DeleteDrawing(Some(front + back), drawingId) ==
      DeleteDrawing(Some(front), drawingId) + DeleteDrawing(Some(back), drawingId)
  {
    FilterAppend(front, back, (d: Drawing) => d.id != drawingId);
  }

  /** Deleting a drawing that was just created under its new id leaves what deleting that id alone leaves. */
  lemma DeleteUndoesCreateDrawing(cache: Option<seq<Drawing>>, newDrawing: Drawing)
    ensures DeleteDrawing(Some(CreateDrawing(cache, newDrawing)), NewDrawingId(cache)) ==
      DeleteDrawing(cache, NewDrawingId(cache))
  {
    var prev := Cached(cache);
    DeleteDrawingKeepsOrder(prev, [newDrawing.(id := NewDrawingId(cache))], NewDrawingId(cache));
  }

  /** Deleting after updating the same id is the same as deleting alone: the update touched only what goes. */
  lemma DeleteAfterUpdateDrawing(cache: Option<seq<Drawing>>, updated: Drawing)
    ensures DeleteDrawing(Some(UpdateDrawing(cache, updated)), updated.id) == DeleteDrawing(cache, updated.id)
  {
    FilterIgnoresRejectedChanges(UpdateDrawing(cache, updated), Cached(cache), (d: Drawing) => d.id != updated.id);
  }

  /** Updating twice with the same drawing is updating once. */
  lemma UpdateDrawingIdempotent(cache: Option<seq<Drawing>>, updated: Drawing)
    ensures UpdateDrawing(Some(UpdateDrawing(cache, updated)), updated) == UpdateDrawing(cache, updated)
  {
  }

  /**
   * The positional id is not unique: with drawings "1" and "2" cached, deleting "1" and then
   * creating a drawing gives the new one the id "2" again.
   */
  lemma CreateAfterDeleteRepeatsId(first: Drawing, second: Drawing, added: Drawing)
    requires first.id == "1" && second.id == "2"
    ensures var after := CreateDrawing(Some(DeleteDrawing(Some([first, second]), "1")), added);
      |after| == 2 && after[0].id == after[1].id == "2"
  {
    var keep := (d: Drawing) => d.id != "1";
    assert [first, second][1..] == [second] && [second][1..] == [];
    assert Filter([second], keep) == [second];
    assert DeleteDrawing(Some([first, second]), "1") == [second];
    assert ToDecimal(2) == "2";
  }

  /* ------------------------------------------------------------------ prizes */

  /** `onSuccess` of the create-prize hook: append to the prize list of the drawing(s) it names. */
  function CreatePrize(cache: Option<seq<Drawing>>, newPrize: Prize): (r: seq<Drawing>)
    ensures |r| == |Cached(cache)|
    ensures forall i :: 0 <= i < |r| ==> var d := Cached(cache)[i];
      if d.id == newPrize.drawingId then
        r[i].subRows == Some(Prizes(d) + [newPrize]) && r[i].(subRows := d.subRows) == d
      else
        r[i] == d
  {
    var ds := Cached(cache);
    seq(|ds|, i requires 0 <= i < |ds| =>
      if ds[i].id == newPrize.drawingId then ds[i].(subRows := Some(Prizes(ds[i]) + [newPrize])) else ds[i])
  }

  /** `prize.id === updated.id ? { ...prize, ...updated } : prize`, over one prize list. */
  function ReplacePrize(ps: seq<Prize>, updated: Prize): (r: seq<Prize>)
    ensures |r| == |ps|
    ensures forall j :: 0 <= j < |ps| ==> r[j] == if ps[j].id == updated.id then updated else ps[j]
  {
    // spreading a complete `updated` over `prize` overwrites every field, giving `updated`
    seq(|ps|, j requires 0 <= j < |ps| => if ps[j].id == updated.id then updated else ps[j])
  }

  /** `onSuccess` of the update-prize hook: replace the prize inside the drawing it names. */
  function UpdatePrize(cache: Option<seq<Drawing>>, updated: Prize): (r: seq<Drawing>)
    ensures |r| == |Cached(cache)|
    ensures forall i :: 0 <= i < |r| ==> var d := Cached(cache)[i];
      r[i].(subRows := d.subRows) == d &&
      (d.id != updated.drawingId || d.subRows.None? ==> r[i] == d) &&
      (d.id == updated.drawingId && d.subRows.Some? ==>
        r[i].subRows == Some(ReplacePrize(d.subRows.value, updated)))
  {
    var ds := Cached(cache);
    seq(|ds|, i requires 0 <= i < |ds| =>
      if ds[i].id == updated.drawingId then
        ds[i].(subRows := match ds[i].subRows
                          case None => None
                          case Some(ps) => Some(ReplacePrize(ps, updated)))
      else ds[i])
  }

  /** `subRows?.filter(prize => prize.id !== prizeId)`. */
  function WithoutPrize(subRows: Option<seq<Prize>>, prizeId: string): (r: Option<seq<Prize>>)
    ensures r.Some? == subRows.Some?
  {
    match subRows
    case None => None
    case Some(ps) => Some(Filter(ps, (p: Prize) => p.id != prizeId))
  }

  /** `onSuccess` of the delete-prize hook: drop the prize id from the list of every drawing. */
  function DeletePrize(cache: Option<seq<Drawing>>, prizeId: string): (r: seq<Drawing>)
    ensures |r| == |Cached(cache)|
    ensures forall i :: 0 <= i < |r| ==>
      r[i].(subRows := Cached(cache)[i].subRows) == Cached(cache)[i] &&
      r[i].subRows == WithoutPrize(Cached(cache)[i].subRows, prizeId)
  {
    var ds := Cached(cache);
    seq(|ds|, i requires 0 <= i < |ds| => ds[i].(subRows := WithoutPrize(ds[i].subRows, prizeId)))
  }

  /**
   * After deleting, no drawing lists a prize with that id, and a prize is listed under a drawing
   * exactly when it was listed there before under another id.
   */
  lemma DeletePrizeContents(cache: Option<seq<Drawing>>, prizeId: string, i: nat, p: Prize)
    requires i < |Cached(cache)|
    ensures p in Prizes(DeletePrize(cache, prizeId)[i]) <==> p in Prizes(Cached(cache)[i]) && p.id != prizeId
  {
    var d := Cached(cache)[i];
    if d.subRows.Some? {
      FilterMembership(d.subRows.value, (p: Prize) => p.id != prizeId, p);
    }
  }

  /**
   * Saving the blank prize started from a drawing row appends it to that drawing's list:
   * the template names the drawing it was created from.
   */
  lemma SubRowTemplateJoinsParent(ds: seq<Drawing>, i: nat, name: string, specifications: string, value: string)
    requires i < |ds|
    ensures var template := CreateSubRow(DrawingRow(ds[i]), i).value.1;
      var saved := template.(name := name, specifications := specifications, commercialValuation := value);
      Prizes(CreatePrize(Some(ds), saved)[i]) == Prizes(ds[i]) + [saved]
  {
  }

  /** Deleting a prize that was just created leaves each drawing listing what deleting alone leaves. */
  lemma DeleteUndoesCreatePrize(cache: Option<seq<Drawing>>, newPrize: Prize, i: nat)
    requires i < |Cached(cache)|
    ensures Prizes(DeletePrize(Some(CreatePrize(cache, newPrize)), newPrize.id)[i]) ==
      Prizes(DeletePrize(cache, newPrize.id)[i])
  {
    var d := Cached(cache)[i];
    if d.id == newPrize.drawingId {
      FilterAppend(Prizes(d), [newPrize], (p: Prize) => p.id != newPrize.id);
    }
  }

  /** Deleting a prize after updating it is the same as deleting it alone. */
  lemma DeleteAfterUpdatePrize(cache: Option<seq<Drawing>>, updated: Prize)
    ensures DeletePrize(Some(UpdatePrize(cache, updated)), updated.id) == DeletePrize(cache, updated.id)
  {
    var ds := Cached(cache);
    var before, after := DeletePrize(cache, updated.id), DeletePrize(Some(UpdatePrize(cache, updated)), updated.id);
    forall i | 0 <= i < |ds| ensures after[i] == before[i] {
      var d := ds[i];
      if d.id == updated.drawingId && d.subRows.Some? {
        FilterIgnoresRejectedChanges(ReplacePrize(d.subRows.value, updated), d.subRows.value,
          (p: Prize) => p.id != updated.id);
      }
    }
  }

  /** Updating a prize twice with the same value is updating it once. */
  lemma UpdatePrizeIdempotent(cache: Option<seq<Drawing>>, updated: Prize)
    ensures UpdatePrize(Some(UpdatePrize(cache, updated)), updated) == UpdatePrize(cache, updated)
  {
    var once := UpdatePrize(cache, updated);
    var twice := UpdatePrize(Some(once), updated);
    forall i | 0 <= i < |once| ensures twice[i] == once[i] {
      var d := once[i];
      if d.id == updated.drawingId && d.subRows.Some? {
        assert ReplacePrize(d.subRows.value, updated) == d.subRows.value;
      }
    }
  }
}
