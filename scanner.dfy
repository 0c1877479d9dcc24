/** The page scanner: builds the current product's wishlist entry from the
    title text, the first price line and the product image's `src`
    attribute, each of which the page may lack. */
module Scanner {
  import opened Wrappers
  import opened Text
  import opened Wishlist

  /** The literal label stripped from the price line. */
  const PriceLabel: string := "Price:"

  /** `text.replace('Price:', '').trim()`: the first occurrence of the label,
      wherever it stands, is deleted and the rest is trimmed. */
  function ExtractPrice(text: string): (r: string)
    ensures NoEdgeWhitespace(r)
    ensures PaddedBy(ReplaceFirst(text, PriceLabel, ""), r)
  {
    Trim(ReplaceFirst(text, PriceLabel, ""))
  }

  /** A price line without the label is only trimmed. */
  lemma PriceWithoutLabel(text: string)
    requires forall k :: 0 <= k <= |text| - |PriceLabel| ==> !OccursAt(text, PriceLabel, k)
    ensures ExtractPrice(text) == Trim(text)
  {
  }

  /** A price line whose first label occurrence follows `before` loses just
      that occurrence: the price is the trimmed text around it, joined. */
  lemma PriceAroundLabel(before: string, after: string)
    requires forall k :: 0 <= k < |before| ==> !OccursAt(before + PriceLabel + after, PriceLabel, k)
    ensures ExtractPrice(before + PriceLabel + after) == Trim(before + after)
  {
    DeleteFirstAt(before, PriceLabel, after);
  }

  /** The usual markup: a leading label followed by padding and the amount
      gives the amount. */
  lemma PriceOfLabelledLine(pad: string, amount: string)
    requires AllWhitespace(pad) && NoEdgeWhitespace(amount)
    ensures ExtractPrice(PriceLabel + pad + amount) == amount
  {
    StripLeadingTag(PriceLabel, pad, amount);
  }

  /** In "Sale Price: $8" the label first occurs after "Sale ". */
  lemma SaleLineSplits()
    ensures "Sale Price: $8" == "Sale " + PriceLabel + " $8"
    ensures forall k :: 0 <= k < |"Sale "| ==> !OccursAt("Sale Price: $8", PriceLabel, k)
  {
    var line := "Sale Price: $8";
    forall k | 0 <= k < |"Sale "| ensures !OccursAt(line, PriceLabel, k) {
      assert line[k] != 'P';
    }
  }

  /** The label is deleted wherever it first occurs, not only at the start:
      "Sale Price: $8" gives "Sale  $8" (two spaces). */
  lemma PriceLabelInside()
    ensures ExtractPrice("Sale Price: $8") == "Sale  $8"
  {
    SaleLineSplits();
    PriceAroundLabel("Sale ", " $8");
    SaleJoined();
  }

  /** The text left around the label in "Sale Price: $8", trimmed. */
  lemma SaleJoined()
    ensures Trim("Sale " + " $8") == "Sale  $8"
  {
    var joined := "Sale " + " $8";
    assert joined == "Sale  $8";
    assert "" + joined + "" == joined;
    TrimOfPadded("", joined, "");
  }

  /** The item built at page load, or `None` when the title, the price line
      or the image is missing, in which case no click handler is attached.
      `name` is the trimmed title, `imgSrc` the attribute taken verbatim. */
  function ScanItem(title: Option<string>, priceText: Option<string>, src: Option<string>): (r: Option<Item>)
    ensures r.Some? <==> title.Some? && priceText.Some? && src.Some?
    ensures r.Some? ==> NoEdgeWhitespace(r.value.name) && PaddedBy(title.value, r.value.name)
    ensures r.Some? ==> r.value.price == ExtractPrice(priceText.value)
    ensures r.Some? ==> r.value.imgSrc == src.value
  {
    if title.Some? && priceText.Some? && src.Some? then
      Some(Item(Trim(title.value), ExtractPrice(priceText.value), src.value))
    else
      None
  }
}
