/**
 * Two end-to-end walks through the model: editing a fresh product, and a
 * save cycle against an endpoint whose write fails once.
 */
module Scenarios {
  import opened Seqs
  import opened Inventory
  import opened ProductCard
  import opened App
  import opened Storage
  import opened SyncEngine

  const SHIRT := Product("p1", "Shirt", None, [], "t0")
  const SLOT_IDS := ["e1", "e2", "e3", "e4", "e5"]

  /** An empty list; add product "Shirt": one product, no variants. */
  lemma AddShirt()
    ensures AddProduct([], "Shirt", "p1", "t0") == [SHIRT]
  {
    assert !Text.IsWhitespace("Shirt"[0]);
  }

  /** Add colour "Blue": one variant with five empty slots. */
  lemma AddBlue()
    ensures AddColor(SHIRT, "Blue", "v1", SLOT_IDS).variants
            == [ColorVariant("v1", "Blue", EmptySlots(SLOT_IDS))]
    ensures |EmptySlots(SLOT_IDS)| == 5
    ensures forall e :: e in EmptySlots(SLOT_IDS) ==> e.status == Empty
  {
    assert !Text.IsWhitespace("Blue"[0]);
  }

  /** Clicking the first slot twice (passing the status shown each time) makes it sold. */
  lemma ClickTwice(v: ColorVariant)
    requires v == ColorVariant("v1", "Blue", EmptySlots(SLOT_IDS))
    ensures var p := SHIRT.(variants := [v]);
            var twice := EntryClick(EntryClick(p, "v1", "e1", Empty), "v1", "e1", Stocked);
            && |twice.variants| == 1
            && |twice.variants[0].entries| == 5
            && twice.variants[0].entries[0] == Entry("e1", Sold)
            && forall j :: 1 <= j < 5 ==> twice.variants[0].entries[j] == v.entries[j]
  {
  }

  /** Removing that slot leaves four. */
  lemma RemoveClicked(w: ColorVariant)
    requires w.id == "v1" && |w.entries| == 5 && w.entries[0].id == "e1"
    requires forall j :: 1 <= j < 5 ==> w.entries[j] == Entry(SLOT_IDS[j], Empty)
    ensures |RemoveEntry(SHIRT.(variants := [w]), "v1", "e1").variants[0].entries| == 4
  {
    assert w.entries == [w.entries[0]] + w.entries[1..];
    assert forall e :: e in w.entries[1..] ==> !EntryIs("e1")(e);
    assert CountWhere(w.entries[1..], EntryIs("e1")) == 0;
    assert CountWhere(w.entries, EntryIs("e1")) == 1;
  }

  /**
   * With an endpoint configured, a save whose remote write throws raises the
   * error flag while the local key still holds the latest list; the next
   * save that goes through lowers it again.
   */
  method FailingRemoteScenario(first: seq<Product>, second: seq<Product>)
  {
    var store := new InventoryStore("https://sheet.example/exec", None);
    var c := new SaveController(store);
    c.Mount(FetchThrew, false, false);
    assert c.products == [] && c.timer == Some([]);

    c.Edit(first);
    c.Fire(false, PostThrew);
    assert c.syncError && !c.isSyncing;
    assert ReadLocal(store.cell, false) == first;

    c.Edit(second);
    assert c.syncError;
    c.Fire(false, Answered(500));
    assert !c.syncError && !c.isSyncing;
    assert ReadLocal(store.cell, false) == second;
  }
}
