/**
 * The inventory summary handed to the insights assistant: per product, per
 * colour, how many slots there are and how many are stocked, sold or empty.
 * The prompt text and the language-model call itself are not modelled; the
 * result here is the request the model would be sent.
 */
module Insights {
  import opened Seqs
  import opened Inventory

  const MISSING_KEY_MESSAGE := "API Key is missing. Please configure process.env.API_KEY."

  datatype VariantSummary = VariantSummary(color: string, totalSlots: nat, stocked: nat, sold: nat, empty: nat)

  datatype ProductSummary = ProductSummary(name: string, variants: seq<VariantSummary>)

  /** Either the fixed missing-key answer, or the summary and query the model would receive. */
  datatype Insight = KeyMissing(message: string) | Request(summary: seq<ProductSummary>, query: string)

  function SummarizeVariant(v: ColorVariant): (s: VariantSummary)
    ensures s.color == v.name && s.totalSlots == |v.entries|
    ensures s.stocked + s.sold + s.empty == s.totalSlots
    ensures s.stocked <= s.totalSlots && s.sold <= s.totalSlots && s.empty <= s.totalSlots
    ensures s.stocked == CountWhere(v.entries, HasStatus(Stocked))
    ensures s.sold == CountWhere(v.entries, HasStatus(Sold))
    ensures s.empty == CountWhere(v.entries, HasStatus(Empty))
  {
    StatusCountsPartition(v.entries);
    VariantSummary(
      v.name,
      |v.entries|,
      StatusCount(v.entries, Stocked),
      StatusCount(v.entries, Sold),
      StatusCount(v.entries, Empty))
  }

  function SummarizeProduct(p: Product): (s: ProductSummary)
    ensures s.name == p.name && |s.variants| == |p.variants|
    ensures forall j :: 0 <= j < |p.variants| ==> s.variants[j] == SummarizeVariant(p.variants[j])
  {
    ProductSummary(p.name, seq(|p.variants|, j requires 0 <= j < |p.variants| => SummarizeVariant(p.variants[j])))
  }

  /** One summary per product, in list order. */
  function InventorySummary(products: seq<Product>): (r: seq<ProductSummary>)
    ensures |r| == |products|
    ensures forall i :: 0 <= i < |products| ==> r[i] == SummarizeProduct(products[i])
  {
    seq(|products|, i requires 0 <= i < |products| => SummarizeProduct(products[i]))
  }

  /** Without an API key the fixed message comes back and no request is built. */
  function GetInventoryInsights(apiKey: string, products: seq<Product>, query: string): (r: Insight)
    ensures apiKey == "" <==> r.KeyMissing?
    ensures r.KeyMissing? ==> r.message == MISSING_KEY_MESSAGE
    ensures r.Request? ==> r.summary == InventorySummary(products) && r.query == query
  {
    if apiKey == "" then KeyMissing(MISSING_KEY_MESSAGE)
    else Request(InventorySummary(products), query)
  }

  /** Every slot of the inventory is counted exactly once across the three statuses. */
  lemma SummaryAccountsForEverySlot(products: seq<Product>, i: nat, j: nat)
    requires i < |products| && j < |products[i].variants|
    ensures var s := InventorySummary(products)[i].variants[j];
            s.stocked + s.sold + s.empty == |products[i].variants[j].entries|
  {
  }
}
