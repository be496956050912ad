/**
 * The data preparation of images/visualise.py from the parsed results log
 * to the prepared series: extract the complete designs, sort them by
 * generation, project them into arrays, accumulate the best L/D and fix
 * the axis limits. The two ways the script stops with an exception are
 * error results here.
 */
module Visualise {
  import opened Wrappers
  import opened GenIndex
  import opened Designs
  import opened StableSort
  import opened PlotData

  datatype PrepareError =
    | GenerationIndexTypeError   // float() raised a TypeError while computing a sort key
    | NoDesigns                  // `LDs[0]` raised an IndexError: no design was complete

  predicate HasSortKey(r: Record) {
    GenToFloat(r.genIndex).Some?
  }

  /** `gen_to_float(x["gen_index"])`, for a row whose key does not raise. */
  function SortKey(r: Record): real
    requires HasSortKey(r)
  {
    GenToFloat(r.genIndex).value
  }

  /** Every entry carries the key of its own row. */
  ghost predicate KeysMatch(es: seq<Keyed<Record>>) {
    forall i :: 0 <= i < |es| ==> GenToFloat(es[i].item.genIndex) == Some(es[i].key)
  }

  /** Every row has a key that does not raise. */
  ghost predicate AllKeyed(rs: seq<Record>) {
    forall i :: 0 <= i < |rs| ==> HasSortKey(rs[i])
  }

  lemma AllKeyedSnoc(rs: seq<Record>)
    requires rs != []
    ensures AllKeyed(rs) <==> AllKeyed(rs[..|rs| - 1]) && HasSortKey(rs[|rs| - 1])
  {
    var init := rs[..|rs| - 1];
    assert forall i :: 0 <= i < |init| ==> init[i] == rs[i];
  }

  lemma KeysMatchSnoc(es: seq<Keyed<Record>>, e: Keyed<Record>)
    requires KeysMatch(es) && GenToFloat(e.item.genIndex) == Some(e.key)
    ensures KeysMatch(es + [e])
  {
  }

  /** The key computation `list.sort` performs before reordering; None when a key raises. */
  function Decorate(rs: seq<Record>): (r: Option<seq<Keyed<Record>>>)
    ensures r.Some? <==> AllKeyed(rs)
    ensures r.Some? ==> Items(r.value) == rs && KeysMatch(r.value)
  {
    if rs == [] then Some([])
    else
      var init, last := rs[..|rs| - 1], rs[|rs| - 1];
      AllKeyedSnoc(rs);
      var d := Decorate(init);
      var key := GenToFloat(last.genIndex);
      if d.None? || key.None? then None
      else
        var e := Keyed(key.value, last);
        ItemsSnoc(d.value, e);
        KeysMatchSnoc(d.value, e);
        assert rs == init + [last];
        Some(d.value + [e])
  }

  /** The rows whose generation index converts to `k`, in order. */
  function WithKey(rs: seq<Record>, k: real): seq<Record> {
    if rs == [] then []
    else WithKey(rs[..|rs| - 1], k) + (if GenToFloat(rs[|rs| - 1].genIndex) == Some(k) then [rs[|rs| - 1]] else [])
  }

  /**
   * `design_data.sort(key=lambda x: gen_to_float(x["gen_index"]))`: fails
   * exactly when some row's key raises; otherwise the rows are a
   * permutation of the input, ordered by non-decreasing key.
   */
  function SortByGeneration(rs: seq<Record>): (r: Option<seq<Record>>)
    ensures r.Some? <==> AllKeyed(rs)
    ensures r.Some? ==> multiset(r.value) == multiset(rs)
    ensures r.Some? ==> forall i :: 0 <= i < |r.value| ==> HasSortKey(r.value[i])
    ensures r.Some? ==> forall i, j :: 0 <= i < j < |r.value| ==> SortKey(r.value[i]) <= SortKey(r.value[j])
  {
    match Decorate(rs)
    case None => None
    case Some(es) =>
      var sorted := SortByKey(es);
      SortedKeysMatch(es, sorted);
      SortByKeyPermutesItems(es);
      Some(Items(sorted))
  }

  lemma SortedKeysMatch(es: seq<Keyed<Record>>, sorted: seq<Keyed<Record>>)
    requires KeysMatch(es) && multiset(sorted) == multiset(es)
    ensures KeysMatch(sorted)
  {
    forall i | 0 <= i < |sorted| ensures GenToFloat(sorted[i].item.genIndex) == Some(sorted[i].key) {
      assert sorted[i] in multiset(es);
    }
  }

  /** On entries that carry their rows' keys, the run of key k is the rows with key k. */
  lemma {:induction false} RunIsWithKey(es: seq<Keyed<Record>>, k: real)
    requires KeysMatch(es)
    ensures Run(es, k) == WithKey(Items(es), k)
  {
    if es != [] {
      var init := es[..|es| - 1];
      assert Items(es)[..|es| - 1] == Items(init);
      RunIsWithKey(init, k);
    }
  }

  /** The sort is stable: rows with equal keys keep their relative order. */
  lemma SortByGenerationIsStable(rs: seq<Record>, k: real)
    requires SortByGeneration(rs).Some?
    ensures WithKey(SortByGeneration(rs).value, k) == WithKey(rs, k)
  {
    var es := Decorate(rs).value;
    var sorted := SortByKey(es);
    SortedKeysMatch(es, sorted);
    RunIsWithKey(es, k);
    RunIsWithKey(sorted, k);
    SortByKeyIsStable(es, k);
  }

  /**
   * The script's data preparation. It stops with a TypeError when a
   * complete design has a generation index that is neither a number nor a
   * string, and with an IndexError when no design is complete; otherwise
   * every series is derived from the complete designs sorted by generation.
   */
  method PrepareSeries(designs: seq<Design>) returns (r: Result<Series, PrepareError>)
    ensures r == Failure(GenerationIndexTypeError) <==>
      exists i :: 0 <= i < |Filtered(designs)| && !HasSortKey(Filtered(designs)[i])
    ensures r == Failure(NoDesigns) <==> Filtered(designs) == []
    ensures r.Success? ==>
      && WellFormed(r.value)
      && multiset(r.value.designData) == multiset(Filtered(designs))
      && SortByGeneration(Filtered(designs)) == Some(r.value.designData)
  {
    var designData := ExtractDesignData(designs);
    var sorted := SortByGeneration(designData);
    if sorted.None? {
      return Failure(GenerationIndexTypeError);
    }
    designData := sorted.value;

    var aoas := AnglesOfAttack(designData);
    var speeds := Speeds(designData);
    var lds := LiftToDrags(designData);
    var iterations := Iterations(|lds|);

    if |lds| == 0 {
      return Failure(NoDesigns);
    }
    var cumulativeBest := CumulativeBest(lds);

    r := Success(Series(
      designData, aoas, speeds, lds, iterations, cumulativeBest,
      PaddedLimits(aoas), PaddedLimits(speeds), PaddedLimits(lds),
      TopPlotXLimits(|lds|), TopPlotYLimits(lds), NumSobol(|lds|)));
  }
}
