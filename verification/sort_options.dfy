/** The sort selector of src/components/ui/SortOptions.tsx: four buttons,
    one per key of `sortOptionMapping`, each mapped to a `SortOption`, and
    the highlight on the button whose option is the current sort. */
module SortOptions {
  import opened Common

  datatype SortOption = Trending | New | Finalized | Marketcap

  /** `Object.keys(sortOptionMapping)`: the labels in insertion order. */
  const Labels: seq<string> := ["About to Graduate", "Market Cap", "Newly Created", "Graduated"]

  /** `sortOptionMapping[text]`; a text that is not a key gives `undefined`. */
  function OptionForLabel(text: string): (r: Option<SortOption>)
    ensures r.Some? <==> text in Labels
  {
    if text == "About to Graduate" then Some(Trending)
    else if text == "Market Cap" then Some(Marketcap)
    else if text == "Newly Created" then Some(New)
    else if text == "Graduated" then Some(Finalized)
    else None
  }

  /** The label whose button selects `o`. */
  function LabelOf(o: SortOption): (l: string)
    ensures l in Labels
  {
    match o
    case Trending => "About to Graduate"
    case Marketcap => "Market Cap"
    case New => "Newly Created"
    case Finalized => "Graduated"
  }

  /** LabelOf undoes OptionForLabel: every option is the image of its label. */
  lemma LabelSelectsOption(o: SortOption)
    ensures OptionForLabel(LabelOf(o)) == Some(o)
  {
    match o
    case Trending =>
    case Marketcap => assert LabelOf(o)[0] != "About to Graduate"[0];
    case New =>
      assert LabelOf(o)[0] != "About to Graduate"[0] && LabelOf(o)[0] != "Market Cap"[0];
    case Finalized =>
      assert LabelOf(o)[0] != "About to Graduate"[0] && LabelOf(o)[0] != "Market Cap"[0]
        && LabelOf(o)[0] != "Newly Created"[0];
  }

  /** OptionForLabel undoes LabelOf: every label is the label of its option. */
  lemma OptionHasLabel(text: string)
    requires text in Labels
    ensures OptionForLabel(text).Some? && LabelOf(OptionForLabel(text).value) == text
  {
    var i :| 0 <= i < |Labels| && Labels[i] == text;
    LabelSelectsOption(OptionForLabel(text).value);
  }

  /** The four labels select four distinct options. */
  lemma LabelsSelectDistinctOptions(i: int, j: int)
    requires 0 <= i < |Labels| && 0 <= j < |Labels|
    requires OptionForLabel(Labels[i]) == OptionForLabel(Labels[j])
    ensures i == j
  {
    OptionHasLabel(Labels[i]);
    OptionHasLabel(Labels[j]);
    assert Labels[i] == Labels[j];
  }

  datatype SortButton = SortButton(caption: string, onClick: SortOption, highlighted: bool)

  /** A label selects the current sort exactly when it is that sort's label. */
  lemma SelectsIffLabel(currentSort: SortOption)
    ensures forall i :: 0 <= i < |Labels| ==>
      (OptionForLabel(Labels[i]) == Some(currentSort) <==> Labels[i] == LabelOf(currentSort))
  {
    LabelSelectsOption(currentSort);
    forall i | 0 <= i < |Labels| && OptionForLabel(Labels[i]) == Some(currentSort)
      ensures Labels[i] == LabelOf(currentSort)
    {
      OptionHasLabel(Labels[i]);
    }
  }

  /** The rendered buttons for a given `currentSort`: in key order, each
      selecting its mapped option, and lit exactly on the current sort's label. */
  function Buttons(currentSort: SortOption): (bs: seq<SortButton>)
    ensures |bs| == |Labels|
    ensures forall i :: 0 <= i < |bs| ==>
      bs[i].caption == Labels[i] && Some(bs[i].onClick) == OptionForLabel(Labels[i])
    ensures forall i :: 0 <= i < |bs| ==> (bs[i].highlighted <==> bs[i].onClick == currentSort)
    ensures forall i :: 0 <= i < |bs| ==> (bs[i].highlighted <==> bs[i].caption == LabelOf(currentSort))
  {
    SelectsIffLabel(currentSort);
    seq(|Labels|, i requires 0 <= i < |Labels| =>
      var o := OptionForLabel(Labels[i]).value;
      SortButton(Labels[i], o, o == currentSort))
  }

  /** Whatever the current sort, exactly one button is highlighted, and
      it is the one labelled LabelOf(currentSort). */
  lemma {:induction false} ExactlyOneHighlighted(currentSort: SortOption)
    ensures exists i :: 0 <= i < |Buttons(currentSort)| && Buttons(currentSort)[i].highlighted
    ensures forall i :: 0 <= i < |Buttons(currentSort)| && Buttons(currentSort)[i].highlighted ==>
      Buttons(currentSort)[i].caption == LabelOf(currentSort)
  {
    var bs := Buttons(currentSort);
    var k := match currentSort
      case Trending => 0 case Marketcap => 1 case New => 2 case Finalized => 3;
    assert Labels[k] == LabelOf(currentSort);
    LabelSelectsOption(currentSort);
    assert bs[k].highlighted;
    forall i | 0 <= i < |bs| && bs[i].highlighted ensures bs[i].caption == LabelOf(currentSort) {
      assert OptionForLabel(Labels[i]) == Some(currentSort);
      OptionHasLabel(Labels[i]);
    }
  }
}
