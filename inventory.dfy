/**
 * The record types of the inventory: a product owns an ordered list of
 * colour variants, a variant owns an ordered list of stock-unit entries, and
 * every entry is in one of three states.
 */
module Inventory {
  import opened Seqs

  datatype Option<T> = None | Some(value: T)

  /** The only three states an entry can be in. */
  datatype EntryStatus = Empty | Stocked | Sold

  /** One stock unit: an identifier and a status, nothing else. */
  datatype Entry = Entry(id: string, status: EntryStatus)

  /** A colour of a product; `entries` is ordered and may be empty. */
  datatype ColorVariant = ColorVariant(id: string, name: string, entries: seq<Entry>)

  /** The root aggregate; only `category` is optional. */
  datatype Product = Product(
    id: string,
    name: string,
    category: Option<string>,
    variants: seq<ColorVariant>,
    updatedAt: string)

  /**
   * The whole collection. Documentary: what is loaded, saved and edited is the
   * bare product list, so the operations take `seq<Product>` directly.
   */
  datatype InventoryData = InventoryData(products: seq<Product>)

  /** The filter callback `e => e.status === st`. */
  function HasStatus(st: EntryStatus): Entry -> bool
  {
    (e: Entry) => e.status == st
  }

  /** `entries.filter(e => e.status === st).length`. */
  function StatusCount(entries: seq<Entry>, st: EntryStatus): (n: nat)
    ensures n <= |entries|
    ensures n == CountWhere(entries, HasStatus(st))
  {
    |Filter(entries, HasStatus(st))|
  }

  /** Every entry is counted under exactly one of the three statuses. */
  lemma {:induction false} StatusCountsPartition(entries: seq<Entry>)
    ensures StatusCount(entries, Empty) + StatusCount(entries, Stocked) + StatusCount(entries, Sold)
            == |entries|
  {
    if entries != [] {
      StatusCountsPartition(entries[1..]);
    }
  }

  /** Appending one entry raises the count of its own status by one and no other. */
  lemma StatusCountAppend(entries: seq<Entry>, e: Entry, st: EntryStatus)
    ensures StatusCount(entries + [e], st)
            == StatusCount(entries, st) + (if e.status == st then 1 else 0)
  {
    CountAppend(entries, [e], HasStatus(st));
  }
}
