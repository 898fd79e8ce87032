/**
 * The parts-list panel: a header row followed by one row per placed part,
 * named the way the part selector names it.
 */
module PartsList {
  import opened Ecs
  import opened Placing
  import opened PartSelector

  /** A row of the panel: the "Parts List" header, or the text of one placed part. */
  datatype Row = HeaderRow | PartRow(text: string)

  /** An entry gets a row when it has a name and a real entity. */
  predicate Kept(p: PlacedPart) {
    p.name != "" && p.entity != Placeholder
  }

  /** Every kept entry names a model path; otherwise naming its row panics. */
  predicate Nameable(placed: seq<PlacedPart>) {
    forall i :: 0 <= i < |placed| && Kept(placed[i]) ==> IsModelPath(placed[i].name)
  }

  /** The entries that get a row, in list order. */
  function KeptParts(placed: seq<PlacedPart>): (r: seq<PlacedPart>)
    ensures |r| <= |placed|
    ensures forall x :: x in r <==> x in placed && Kept(x)
  {
    if placed == [] then []
    else
      var init := placed[..|placed| - 1];
      var last := placed[|placed| - 1];
      assert placed == init + [last];
      KeptParts(init) + (if Kept(last) then [last] else [])
  }

  /** Filtering a concatenation filters each part, so the rows keep the list order. */
  lemma {:induction false} KeptPartsAppend(a: seq<PlacedPart>, b: seq<PlacedPart>)
    ensures KeptParts(a + b) == KeptParts(a) + KeptParts(b)
  {
    if b == [] {
      assert a + b == a;
    } else {
      var init := b[..|b| - 1];
      assert (a + b)[..|a + b| - 1] == a + init;
      assert (a + b)[|a + b| - 1] == b[|b| - 1];
      KeptPartsAppend(a, init);
    }
  }

  /** The part rows of the entries, as the spawn and refresh loops produce them. */
  function Rows(placed: seq<PlacedPart>): seq<Row>
    requires Nameable(placed)
  {
    if placed == [] then []
    else
      var init := placed[..|placed| - 1];
      var last := placed[|placed| - 1];
      Rows(init) + (if Kept(last) then [PartRow(ReverseModelName(last.name))] else [])
  }

  /** There is one row per kept entry, in order, showing that entry's part name. */
  lemma {:induction false} RowsOfKept(placed: seq<PlacedPart>)
    requires Nameable(placed)
    ensures |Rows(placed)| == |KeptParts(placed)|
    ensures forall i :: 0 <= i < |Rows(placed)| ==>
      IsModelPath(KeptParts(placed)[i].name) && Rows(placed)[i] == PartRow(ReverseModelName(KeptParts(placed)[i].name))
  {
    if placed != [] {
      var init := placed[..|placed| - 1];
      RowsOfKept(init);
      forall i | 0 <= i < |KeptParts(init)|
        ensures KeptParts(init)[i] in placed
      {
        assert KeptParts(init)[i] in init;
      }
    }
  }

  /** Every part row shows one of the selector's part names. */
  lemma RowsArePartNames(placed: seq<PlacedPart>)
    requires Nameable(placed)
    ensures forall i :: 0 <= i < |Rows(placed)| ==> Rows(placed)[i].PartRow? && Rows(placed)[i].text in GetParts()
  {
    RowsOfKept(placed);
    forall i | 0 <= i < |Rows(placed)|
      ensures Rows(placed)[i].text in GetParts()
    {
      ReverseModelNameInverts(KeptParts(placed)[i].name);
    }
  }

  /**
   * What a refresh with `events` queued leaves: nothing changes without an
   * event; with any number of events the header and the kept rows.
   */
  function Refreshed(rows: seq<Row>, events: nat, placed: seq<PlacedPart>): (r: seq<Row>)
    requires Nameable(placed)
    ensures events > 0 ==> |r| == 1 + |KeptParts(placed)| && r[0] == HeaderRow
  {
    RowsOfKept(placed);
    if events == 0 then rows else [HeaderRow] + Rows(placed)
  }

  /** Refreshing twice gives the rows refreshing once gives. */
  lemma RefreshIdempotent(rows: seq<Row>, n: nat, m: nat, placed: seq<PlacedPart>)
    requires Nameable(placed) && m > 0
    ensures Refreshed(Refreshed(rows, n, placed), m, placed) == Refreshed(rows, m, placed)
  {
  }

  /**
   * Appending a kept entry and rebuilding gives the rows the one-row update
   * gives; appending a placeholder entry with a name gives no new row on a
   * rebuild, although the one-row update adds one.
   */
  lemma AppendAgreesWithRebuild(placed: seq<PlacedPart>, e: PlacedPart)
    requires Nameable(placed + [e])
    ensures Nameable(placed) && (Kept(e) ==> IsModelPath(e.name))
    ensures Kept(e) ==> Rows(placed + [e]) == Rows(placed) + [PartRow(ReverseModelName(e.name))]
    ensures e.entity == Placeholder ==> Rows(placed + [e]) == Rows(placed)
  {
    assert forall i :: 0 <= i < |placed| ==> placed[i] == (placed + [e])[i];
    assert (placed + [e])[|placed|] == e;
    assert (placed + [e])[..|placed|] == placed;
  }

  /** The panel, reduced to the rows under it. */
  class PartsListPanel {
    var rows: seq<Row>

    /** `spawn_parts_list`: the header, then a row for each kept entry. */
    constructor (placed: seq<PlacedPart>)
      requires Nameable(placed)
      ensures rows == [HeaderRow] + Rows(placed)
    {
      rows := [HeaderRow];
      new;
      AppendRows(placed);
    }

    /** The spawn and refresh loop: skip the entries that are not kept, add a row for the others. */
    method AppendRows(placed: seq<PlacedPart>)
      requires Nameable(placed)
      modifies this
      ensures rows == old(rows) + Rows(placed)
    {
      for i := 0 to |placed|
        invariant Nameable(placed[..i])
        invariant rows == old(rows) + Rows(placed[..i])
      {
        assert placed[..i + 1][..i] == placed[..i];
        if placed[i].name == "" || placed[i].entity == Placeholder {
          continue;
        }
        rows := rows + [PartRow(ReverseModelName(placed[i].name))];
      }
      assert placed[..|placed|] == placed;
    }

    /**
     * `update_parts_list`: when the list changed, is not empty and its
     * last entry has a name, one row for that entry is appended; the
     * placeholder entity is not checked here.
     */
    method UpdatePartsList(changed: bool, placed: seq<PlacedPart>)
      requires changed && placed != [] && placed[|placed| - 1].name != "" ==> IsModelPath(placed[|placed| - 1].name)
      modifies this
      ensures !changed || placed == [] || placed[|placed| - 1].name == "" ==> rows == old(rows)
      ensures changed && placed != [] && placed[|placed| - 1].name != "" ==>
        rows == old(rows) + [PartRow(ReverseModelName(placed[|placed| - 1].name))]
    {
      if !changed {
        return;
      }
      if placed == [] {
        return;
      }
      if placed[|placed| - 1].name == "" {
        return;
      }
      rows := rows + [PartRow(ReverseModelName(placed[|placed| - 1].name))];
    }

    /** `refresh_parts_list`: per event, clear the rows and rebuild the header and the kept rows. */
    method RefreshPartsList(events: nat, placed: seq<PlacedPart>)
      requires Nameable(placed)
      modifies this
      ensures rows == Refreshed(old(rows), events, placed)
    {
      for k := 0 to events
        invariant rows == Refreshed(old(rows), k, placed)
      {
        rows := [HeaderRow];
        AppendRows(placed);
      }
    }
  }
}
