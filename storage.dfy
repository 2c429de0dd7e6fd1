/**
 * Local-first persistence of the product list. The browser's key-value store
 * holds one record under a fixed key; an optional web endpoint (the sheet
 * script) is read first on load and written best-effort on save.
 *
 * The local record is a cell of this class. Every way the browser storage or
 * the network can behave is an explicit parameter: whether a local read or
 * write throws, and what the remote request produced.
 */
module Storage {
  import opened Inventory

  /**
   * The key the record lives under. Documentary: the model has exactly one
   * local record, `InventoryStore.cell`, so the key is never looked up.
   */
  const STORAGE_KEY := "inventory_flow_data_v1"

  /** What the local key holds: a parsable product list, or text that does not parse. */
  datatype Stored = Json(products: seq<Product>) | Unparsable

  /**
   * How the remote read went: a response with its `ok` flag and its parsed
   * body (None when the body does not parse), or an exception from `fetch`.
   */
  datatype RemoteRead = Response(ok: bool, body: Option<seq<Product>>) | FetchThrew

  /** How the remote write went: any HTTP answer, or an exception from `fetch`. */
  datatype PostOutcome = Answered(status: int) | PostThrew

  /** A remote endpoint is configured exactly when its URL is a non-empty string. */
  predicate HasRemote(url: string)
  {
    url != ""
  }

  /** The local fallback: the stored list, or `[]` when absent, unparsable or unreadable. */
  function ReadLocal(cell: Option<Stored>, readThrows: bool): (data: seq<Product>)
    ensures readThrows || cell.None? || cell.value.Unparsable? ==> data == []
    ensures !readThrows && cell.Some? && cell.value.Json? ==> data == cell.value.products
  {
    if readThrows then []
    else match cell
      case None => []
      case Some(Unparsable) => []
      case Some(Json(products)) => products
  }

  /** The data load returns and the local cell afterwards. */
  datatype Loaded = Loaded(data: seq<Product>, cell: Option<Stored>)

  /** The remote read produced a product list. */
  predicate RemoteDelivers(read: RemoteRead)
  {
    read.Response? && read.ok && read.body.Some?
  }

  /**
   * Load: remote first, mirrored into the local key; on any failure of that
   * step (including a failing mirror write) the local fallback.
   */
  function LoadSpec(url: string, cell: Option<Stored>, read: RemoteRead, mirrorThrows: bool, readThrows: bool): (r: Loaded)
    ensures HasRemote(url) && RemoteDelivers(read) && !mirrorThrows ==>
      r.data == read.body.value && r.cell == Some(Json(read.body.value))
    ensures !(HasRemote(url) && RemoteDelivers(read) && !mirrorThrows) ==>
      r.data == ReadLocal(cell, readThrows) && r.cell == cell
  {
    if HasRemote(url) && RemoteDelivers(read) && !mirrorThrows then
      Loaded(read.body.value, Some(Json(read.body.value)))
    else
      Loaded(ReadLocal(cell, readThrows), cell)
  }

  /** The result save reports: success unless a configured remote write threw. */
  function SaveResult(url: string, post: PostOutcome): (ok: bool)
    ensures !HasRemote(url) ==> ok
    ensures HasRemote(url) ==> (ok <==> post.Answered?)
  {
    !HasRemote(url) || post.Answered?
  }

  /** The local cell after save: the new list, unless the local write threw. */
  function SavedCell(cell: Option<Stored>, products: seq<Product>, writeThrows: bool): (c: Option<Stored>)
    ensures writeThrows ==> c == cell
    ensures !writeThrows ==> ReadLocal(c, false) == products
  {
    if writeThrows then cell else Some(Json(products))
  }

  class InventoryStore {
    /** The configured endpoint; the empty string means none. */
    const url: string
    /** The record under `STORAGE_KEY`. */
    var cell: Option<Stored>

    constructor (url: string, cell: Option<Stored>)
      ensures this.url == url && this.cell == cell
    {
      this.url := url;
      this.cell := cell;
    }

    /** `loadInventory`. */
    method Load(read: RemoteRead, mirrorThrows: bool, readThrows: bool) returns (data: seq<Product>)
      modifies this
      ensures Loaded(data, cell) == LoadSpec(url, old(cell), read, mirrorThrows, readThrows)
    {
      if HasRemote(url) {
        if read.Response? && read.ok && read.body.Some? {
          var fetched := read.body.value;
          if !mirrorThrows {
            cell := Some(Json(fetched));
            return fetched;
          }
        }
      }
      if readThrows {
        return [];
      }
      match cell
      case None => data := [];
      case Some(Unparsable) => data := [];
      case Some(Json(products)) => data := products;
    }

    /** `saveInventory`: the local write first and always, then the remote write. */
    method Save(products: seq<Product>, writeThrows: bool, post: PostOutcome) returns (ok: bool)
      modifies this
      ensures cell == SavedCell(old(cell), products, writeThrows)
      ensures ok == SaveResult(url, post)
    {
      if !writeThrows {
        cell := Some(Json(products));
      }
      if HasRemote(url) {
        if post.PostThrew? {
          return false;
        }
        return true;
      }
      return true;
    }
  }

  /** Without a remote, a save whose local write succeeds is read back exactly by the next load. */
  lemma SaveThenLoadLocal(url: string, cell: Option<Stored>, x: seq<Product>, post: PostOutcome, read: RemoteRead, mirrorThrows: bool)
    requires !HasRemote(url)
    ensures LoadSpec(url, SavedCell(cell, x, false), read, mirrorThrows, false) == Loaded(x, Some(Json(x)))
  {
  }

  /**
   * With a remote whose read fails, the local copy still restores the last
   * saved snapshot, whatever happened to the remote write.
   */
  lemma SaveThenLoadFallback(url: string, cell: Option<Stored>, x: seq<Product>, read: RemoteRead, mirrorThrows: bool)
    requires !RemoteDelivers(read) || mirrorThrows
    ensures LoadSpec(url, SavedCell(cell, x, false), read, mirrorThrows, false).data == x
  {
  }

  /** The result of save does not depend on the local write, nor on the HTTP status. */
  lemma SaveResultIgnoresStatus(url: string, s1: int, s2: int)
    ensures SaveResult(url, Answered(s1)) == SaveResult(url, Answered(s2)) == true
  {
  }

  /** A successful remote load leaves the local key able to serve the same data offline. */
  lemma RemoteLoadRepairsLocal(url: string, cell: Option<Stored>, read: RemoteRead)
    requires HasRemote(url) && RemoteDelivers(read)
    ensures var r := LoadSpec(url, cell, read, false, false);
            r.data == read.body.value && ReadLocal(r.cell, false) == r.data
  {
  }

  /** Load never changes the local key except to mirror delivered remote data. */
  lemma LoadOnlyMirrors(url: string, cell: Option<Stored>, read: RemoteRead, mirrorThrows: bool, readThrows: bool)
    ensures var r := LoadSpec(url, cell, read, mirrorThrows, readThrows);
            r.cell == cell || (RemoteDelivers(read) && r.cell == Some(Json(read.body.value)) && r.data == read.body.value)
  {
  }
}
