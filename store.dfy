/**
 * The sample stores: one file per partition (trn, val, tst), each holding
 * four resizable datasets that only ever grow on their first axis.
 */
module Store {
  import opened Grid

  /** A dataset of a sample file: its elements along the first axis. */
  class Dataset<T> {
    var items: seq<T>

    constructor ()
      ensures items == []
    {
      items := [];
    }

    /**
     * `append_to_dataset`: resize the dataset by one along the first axis,
     * write `sample` into the new slot and return that slot's index, the
     * old length. Earlier elements are untouched.
     */
    method Append(sample: T) returns (idx: nat)
      modifies this
      ensures idx == |old(items)|
      ensures items == old(items) + [sample]
    {
      idx := |items|;
      items := items + [sample];
    }
  }

  /** A sample file with its `sat_img`, `map_img`, `meta_idx` and `metadata` datasets. */
  class SampleFile {
    const satImg: Dataset<Image>
    const mapImg: Dataset<Label>
    const metaIdx: Dataset<int>
    const metadata: Dataset<string>

    /** The objects an append to this file may change. */
    ghost function Repr(): set<object>
    {
      {satImg, mapImg, metaIdx, metadata}
    }

    constructor ()
      ensures fresh(Repr())
      ensures satImg.items == [] && mapImg.items == [] && metaIdx.items == [] && metadata.items == []
    {
      satImg := new Dataset<Image>();
      mapImg := new Dataset<Label>();
      metaIdx := new Dataset<int>();
      metadata := new Dataset<string>();
    }
  }
}
