/**
 * The edit handlers of the product card. Each one takes the current product
 * snapshot and builds a new one, which the card hands to its parent. Fresh
 * identifiers come from a random generator in the application; here they are
 * parameters.
 */
module ProductCard {
  import opened Seqs
  import opened Text
  import opened Inventory

  /** A new colour variant starts with this many slots. */
  const NEW_VARIANT_SLOTS := 5

  /** The status cycle empty -> stocked -> sold -> empty. */
  function NextStatus(s: EntryStatus): (n: EntryStatus)
    ensures n != s
  {
    match s
    case Empty => Stocked
    case Stocked => Sold
    case Sold => Empty
  }

  /** Three clicks bring an entry back to where it started. */
  lemma NextStatusCycle(s: EntryStatus)
    ensures NextStatus(NextStatus(NextStatus(s))) == s
    ensures NextStatus(NextStatus(s)) != s
  {
  }

  /** The slots of a fresh variant: one empty entry per given identifier. */
  function EmptySlots(ids: seq<string>): (es: seq<Entry>)
    ensures |es| == |ids|
    ensures forall j :: 0 <= j < |es| ==> es[j] == Entry(ids[j], Empty)
  {
    Map(ids, (id: string) => Entry(id, Empty))
  }

  /**
   * Adding a colour: a blank name changes nothing; otherwise one variant,
   * named exactly as typed, with five empty slots is appended at the end.
   */
  function AddColor(p: Product, colorName: string, variantId: string, slotIds: seq<string>): (r: Product)
    requires |slotIds| == NEW_VARIANT_SLOTS
    ensures AllWhitespace(colorName) ==> r == p
    ensures !AllWhitespace(colorName) ==>
      && r.(variants := p.variants) == p
      && |r.variants| == |p.variants| + 1
      && r.variants[..|p.variants|] == p.variants
      && r.variants[|p.variants|].id == variantId
      && r.variants[|p.variants|].name == colorName
      && |r.variants[|p.variants|].entries| == NEW_VARIANT_SLOTS
      && (forall e :: e in r.variants[|p.variants|].entries ==> e.status == Empty)
      && StatusCount(r.variants[|p.variants|].entries, Empty) == NEW_VARIANT_SLOTS
  {
    TrimEmptyIffBlank(colorName);
    if Trim(colorName) == [] then p
    else
      var slots := EmptySlots(slotIds);
      FilterKeepsAll(slots, HasStatus(Empty));
      p.(variants := p.variants + [ColorVariant(variantId, colorName, slots)])
  }

  /** The filter callback `v => v.id !== variantId`. */
  function VariantIsNot(variantId: string): ColorVariant -> bool
  {
    (v: ColorVariant) => v.id != variantId
  }

  function VariantIs(variantId: string): ColorVariant -> bool
  {
    (v: ColorVariant) => v.id == variantId
  }

  /**
   * Deleting a colour drops every variant with that id, keeps the others in
   * order, and leaves the product's own fields alone.
   */
  function DeleteColor(p: Product, variantId: string): (r: Product)
    ensures r.(variants := p.variants) == p
    ensures forall v :: v in r.variants <==> v in p.variants && v.id != variantId
    ensures |r.variants| == |p.variants| - CountWhere(p.variants, VariantIs(variantId))
    ensures IsSubseq(r.variants, p.variants)
  {
    var kept := Filter(p.variants, VariantIsNot(variantId));
    FilterMembers(p.variants, VariantIsNot(variantId));
    CountComplement(p.variants, VariantIsNot(variantId), VariantIs(variantId));
    FilterIsSubseq(p.variants, VariantIsNot(variantId));
    p.(variants := kept)
  }

  /** Applies `edit` to the variants whose id is `variantId`; the others stay as they are. */
  function EditVariant(vs: seq<ColorVariant>, variantId: string, edit: ColorVariant -> ColorVariant): (r: seq<ColorVariant>)
    ensures |r| == |vs|
    ensures forall i :: 0 <= i < |vs| ==>
      r[i] == if vs[i].id == variantId then edit(vs[i]) else vs[i]
  {
    Map(vs, (v: ColorVariant) => if v.id != variantId then v else edit(v))
  }

  /** Sets the status of every entry with id `entryId` to `st`. */
  function SetStatus(v: ColorVariant, entryId: string, st: EntryStatus): (w: ColorVariant)
    ensures w.(entries := v.entries) == v
    ensures |w.entries| == |v.entries|
    ensures forall j :: 0 <= j < |v.entries| ==>
      && w.entries[j].id == v.entries[j].id
      && w.entries[j].status == if v.entries[j].id == entryId then st else v.entries[j].status
  {
    v.(entries := Map(v.entries, (e: Entry) => if e.id != entryId then e else e.(status := st)))
  }

  /**
   * Clicking an entry: in the variant `variantId`, every entry `entryId`
   * takes the status that follows `current` (the status the card displayed,
   * not the one stored in the entry). Nothing else changes.
   */
  function EntryClick(p: Product, variantId: string, entryId: string, current: EntryStatus): (r: Product)
    ensures r.(variants := p.variants) == p
    ensures |r.variants| == |p.variants|
    ensures forall i :: 0 <= i < |p.variants| ==>
      r.variants[i] == if p.variants[i].id == variantId
                       then SetStatus(p.variants[i], entryId, NextStatus(current))
                       else p.variants[i]
  {
    var st := NextStatus(current);
    p.(variants := EditVariant(p.variants, variantId, (v: ColorVariant) => SetStatus(v, entryId, st)))
  }

  /** Appends one stocked entry to a variant. */
  function AppendStocked(v: ColorVariant, entryId: string): (w: ColorVariant)
    ensures w.(entries := v.entries) == v
    ensures w.entries == v.entries + [Entry(entryId, Stocked)]
  {
    v.(entries := v.entries + [Entry(entryId, Stocked)])
  }

  /** Adding an entry appends a stocked unit to the variant `variantId` only. */
  function AddEntry(p: Product, variantId: string, entryId: string): (r: Product)
    ensures r.(variants := p.variants) == p
    ensures |r.variants| == |p.variants|
    ensures forall i :: 0 <= i < |p.variants| ==>
      r.variants[i] == if p.variants[i].id == variantId
                       then AppendStocked(p.variants[i], entryId)
                       else p.variants[i]
  {
    p.(variants := EditVariant(p.variants, variantId, (v: ColorVariant) => AppendStocked(v, entryId)))
  }

  function EntryIsNot(entryId: string): Entry -> bool
  {
    (e: Entry) => e.id != entryId
  }

  function EntryIs(entryId: string): Entry -> bool
  {
    (e: Entry) => e.id == entryId
  }

  /** Drops every entry with id `entryId` from a variant, keeping the rest in order. */
  function DropEntry(v: ColorVariant, entryId: string): (w: ColorVariant)
    ensures w.(entries := v.entries) == v
    ensures forall e :: e in w.entries <==> e in v.entries && e.id != entryId
    ensures |w.entries| == |v.entries| - CountWhere(v.entries, EntryIs(entryId))
    ensures IsSubseq(w.entries, v.entries)
  {
    FilterMembers(v.entries, EntryIsNot(entryId));
    CountComplement(v.entries, EntryIsNot(entryId), EntryIs(entryId));
    FilterIsSubseq(v.entries, EntryIsNot(entryId));
    v.(entries := Filter(v.entries, EntryIsNot(entryId)))
  }

  /** Removing an entry affects the variant `variantId` only. */
  function RemoveEntry(p: Product, variantId: string, entryId: string): (r: Product)
    ensures r.(variants := p.variants) == p
    ensures |r.variants| == |p.variants|
    ensures forall i :: 0 <= i < |p.variants| ==>
      r.variants[i] == if p.variants[i].id == variantId
                       then DropEntry(p.variants[i], entryId)
                       else p.variants[i]
  {
    p.(variants := EditVariant(p.variants, variantId, (v: ColorVariant) => DropEntry(v, entryId)))
  }

  /** The stocked and sold figures shown beside a variant's name. */
  function ShownCounts(v: ColorVariant): (counts: (nat, nat))
    ensures counts.0 + counts.1 <= |v.entries|
    ensures counts.0 + counts.1 == |v.entries| - StatusCount(v.entries, Empty)
    ensures counts.0 == CountWhere(v.entries, HasStatus(Stocked))
    ensures counts.1 == CountWhere(v.entries, HasStatus(Sold))
  {
    StatusCountsPartition(v.entries);
    (StatusCount(v.entries, Stocked), StatusCount(v.entries, Sold))
  }

  /** A click on an entry changes statuses only: the variant keeps its size. */
  lemma EntryClickKeepsSlots(p: Product, variantId: string, entryId: string, current: EntryStatus, i: nat)
    requires i < |p.variants|
    ensures |EntryClick(p, variantId, entryId, current).variants[i].entries| == |p.variants[i].entries|
  {
  }

  /** Adding an entry raises the target's stocked count by one and leaves the other counts. */
  lemma AddEntryStocksOne(v: ColorVariant, entryId: string)
    ensures StatusCount(AppendStocked(v, entryId).entries, Stocked) == StatusCount(v.entries, Stocked) + 1
    ensures StatusCount(AppendStocked(v, entryId).entries, Sold) == StatusCount(v.entries, Sold)
    ensures StatusCount(AppendStocked(v, entryId).entries, Empty) == StatusCount(v.entries, Empty)
  {
    var e := Entry(entryId, Stocked);
    StatusCountAppend(v.entries, e, Stocked);
    StatusCountAppend(v.entries, e, Sold);
    StatusCountAppend(v.entries, e, Empty);
  }

  /** Removing an entry that is absent from the target variant changes nothing. */
  lemma RemoveAbsentEntry(p: Product, variantId: string, entryId: string)
    requires forall v, e :: v in p.variants && v.id == variantId && e in v.entries ==> e.id != entryId
    ensures RemoveEntry(p, variantId, entryId) == p
  {
    var r := RemoveEntry(p, variantId, entryId);
    forall i | 0 <= i < |p.variants| && p.variants[i].id == variantId
      ensures r.variants[i] == p.variants[i]
    {
      FilterKeepsAll(p.variants[i].entries, EntryIsNot(entryId));
    }
    assert r.variants == p.variants;
  }
}
