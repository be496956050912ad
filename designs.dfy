/**
 * Extracting the plotted designs (images/visualise.py, the loop over
 * `designs`). A persisted design is kept when its angle of attack, its speed
 * and the value of its L/D objective are all present; a design without a
 * `generation_index` gets the text "0".
 */
module Designs {
  import opened Wrappers
  import opened GenIndex

  /**
   * One entry of the results log, as parsed from JSON. For the angle of
   * attack, the speed and L/D, None stands for a key that is absent or holds
   * null (`dict.get` returns None for both). For `generationIndex`, None
   * stands for an absent key only; a null, array or object value is
   * Some(GenOther).
   */
  datatype Design = Design(
    generationIndex: Option<GenValue>,
    angleOfAttack: Option<real>,
    speed: Option<real>,
    liftToDrag: Option<real>)

  /** One row of `design_data`. */
  datatype Record = Record(genIndex: GenValue, angleOfAttack: real, speed: real, liftToDrag: real)

  predicate Keep(d: Design) {
    d.angleOfAttack.Some? && d.speed.Some? && d.liftToDrag.Some?
  }

  /** The row appended for a kept design; a missing index defaults to "0". */
  function ToRecord(d: Design): (r: Record)
    requires Keep(d)
    ensures d.generationIndex.None? ==> r.genIndex == GenText("0")
    ensures d.generationIndex.Some? ==> r.genIndex == d.generationIndex.value
    ensures r.angleOfAttack == d.angleOfAttack.value && r.speed == d.speed.value
    ensures r.liftToDrag == d.liftToDrag.value
  {
    Record(d.generationIndex.GetOr(GenText("0")), d.angleOfAttack.value, d.speed.value, d.liftToDrag.value)
  }

  /** The rows the extraction loop has appended after reading all of `ds`. */
  function Filtered(ds: seq<Design>): seq<Record> {
    if ds == [] then []
    else Filtered(ds[..|ds| - 1]) + (if Keep(ds[|ds| - 1]) then [ToRecord(ds[|ds| - 1])] else [])
  }

  /** The positions in `ds` of the designs the extraction keeps, in increasing order. */
  function KeptIndices(ds: seq<Design>): seq<nat> {
    if ds == [] then []
    else KeptIndices(ds[..|ds| - 1]) + (if Keep(ds[|ds| - 1]) then [|ds| - 1] else [])
  }

  /** The extraction loop: append the row of every complete design, in log order. */
  method ExtractDesignData(designs: seq<Design>) returns (designData: seq<Record>)
    ensures designData == Filtered(designs)
  {
    designData := [];
    var i := 0;
    while i < |designs|
      invariant 0 <= i <= |designs|
      invariant designData == Filtered(designs[..i])
    {
      var design := designs[i];
      assert designs[..i + 1][..i] == designs[..i];
      if Keep(design) {
        designData := designData + [ToRecord(design)];
      }
      i := i + 1;
    }
    assert designs[..|designs|] == designs;
  }

  /** The kept positions are in range, point at complete designs and increase strictly. */
  lemma {:induction false} KeptIndicesAscending(ds: seq<Design>)
    ensures forall j :: 0 <= j < |KeptIndices(ds)| ==> KeptIndices(ds)[j] < |ds| && Keep(ds[KeptIndices(ds)[j]])
    ensures forall j1, j2 :: 0 <= j1 < j2 < |KeptIndices(ds)| ==> KeptIndices(ds)[j1] < KeptIndices(ds)[j2]
  {
    if ds != [] {
      var init := ds[..|ds| - 1];
      KeptIndicesAscending(init);
      var ks, ks0 := KeptIndices(ds), KeptIndices(init);
      assert forall j :: 0 <= j < |ks0| ==> ks[j] == ks0[j] && ds[ks[j]] == init[ks0[j]];
    }
  }

  /** A position is kept exactly when its design is complete. */
  lemma {:induction false} KeptIndicesExact(ds: seq<Design>)
    ensures forall i :: 0 <= i < |ds| ==> (Keep(ds[i]) <==> i in KeptIndices(ds))
  {
    if ds != [] {
      var init := ds[..|ds| - 1];
      KeptIndicesExact(init);
      KeptIndicesAscending(init);
      var ks0 := KeptIndices(init);
      assert |ds| - 1 !in ks0;
      assert forall i :: 0 <= i < |init| ==> init[i] == ds[i];
    }
  }

  /**
   * The extraction keeps exactly the complete designs, in their original
   * relative order: row j is the row of design KeptIndices(ds)[j], whose
   * positions increase strictly and are exactly those of complete designs.
   */
  lemma {:induction false} FilteredKeepsExactlyCompleteInOrder(ds: seq<Design>)
    ensures |Filtered(ds)| == |KeptIndices(ds)|
    ensures forall j :: 0 <= j < |KeptIndices(ds)| ==>
      KeptIndices(ds)[j] < |ds| && Keep(ds[KeptIndices(ds)[j]]) &&
      Filtered(ds)[j] == ToRecord(ds[KeptIndices(ds)[j]])
    ensures forall j1, j2 :: 0 <= j1 < j2 < |KeptIndices(ds)| ==> KeptIndices(ds)[j1] < KeptIndices(ds)[j2]
    ensures forall i :: 0 <= i < |ds| ==> (Keep(ds[i]) <==> i in KeptIndices(ds))
  {
    KeptIndicesAscending(ds);
    KeptIndicesExact(ds);
    if ds != [] {
      var init := ds[..|ds| - 1];
      FilteredKeepsExactlyCompleteInOrder(init);
      var ks, ks0 := KeptIndices(ds), KeptIndices(init);
      assert forall j :: 0 <= j < |ks0| ==> ks[j] == ks0[j] && ds[ks[j]] == init[ks0[j]];
    }
  }

  /** Nothing but complete designs survive, and every complete design does. */
  lemma {:induction false} FilteredMembership(ds: seq<Design>, r: Record)
    ensures r in Filtered(ds) <==> exists i :: 0 <= i < |ds| && Keep(ds[i]) && ToRecord(ds[i]) == r
  {
    FilteredKeepsExactlyCompleteInOrder(ds);
    var ks := KeptIndices(ds);
    if r in Filtered(ds) {
      var j :| 0 <= j < |Filtered(ds)| && Filtered(ds)[j] == r;
      assert Keep(ds[ks[j]]) && ToRecord(ds[ks[j]]) == r;
    }
    if exists i :: 0 <= i < |ds| && Keep(ds[i]) && ToRecord(ds[i]) == r {
      var i :| 0 <= i < |ds| && Keep(ds[i]) && ToRecord(ds[i]) == r;
      assert i in ks;
      var j :| 0 <= j < |ks| && ks[j] == i;
      assert Filtered(ds)[j] == r;
    }
  }
}
