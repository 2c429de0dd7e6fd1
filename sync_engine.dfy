/**
 * The root screen's persistence effects: one load when the screen mounts,
 * and a debounced save after every change of the product list. There is a
 * single pending timer; each change cancels it and arms a new one carrying
 * the new list, and nothing is armed while the initial load is running.
 *
 * Time and asynchrony are replaced by explicit events: the timer expiring is
 * `Fire`, and what the storage layer reports is a parameter of that event.
 */
module SyncEngine {
  import opened Inventory
  import opened Storage

  /**
   * The quiescence window, in milliseconds, before a save runs. Documentary:
   * time is not modelled, and a `TimerFired` event stands for this window
   * passing with no further edit.
   */
  const DEBOUNCE_MS := 1000

  /**
   * The screen's persistence state. `timer` is the one pending save, holding
   * the list its callback captured; None when no timer is armed.
   */
  datatype SyncState = SyncState(
    products: seq<Product>,
    isLoading: bool,
    isSyncing: bool,
    syncError: bool,
    timer: Option<seq<Product>>)

  /** The initial values of the screen's state. */
  function Initial(): (s: SyncState)
    ensures s.isLoading && s.timer.None? && !s.syncError
  {
    SyncState([], true, false, false, None)
  }

  datatype Event =
    | Edited(products: seq<Product>)    // a handler replaced the product list
    | LoadFinished(data: seq<Product>)  // the mount-time load returned `data`
    | TimerFired(saved: bool)           // the pending timer expired; the save reported `saved`
    | Unmounted                         // the screen went away

  /** One event; `remote` says whether an endpoint is configured. */
  function Step(s: SyncState, e: Event, remote: bool): (t: SyncState)
    ensures e.Edited? ==> t.products == e.products && t.isLoading == s.isLoading
    ensures e.Edited? && s.isLoading ==> t.timer.None?
    ensures e.Edited? && !s.isLoading ==> t.timer == Some(e.products)
    ensures e.TimerFired? && s.timer.Some? ==>
      !t.isSyncing && t.timer.None? && (t.syncError <==> !e.saved && remote)
    ensures !(e.TimerFired? && s.timer.Some?) ==> t.syncError == s.syncError && t.isSyncing == s.isSyncing
    ensures e.TimerFired? ==> t.products == s.products && t.isLoading == s.isLoading
    ensures e.LoadFinished? ==> t == s.(products := e.data, isLoading := false, timer := Some(e.data))
    ensures e.Unmounted? ==> t == s.(timer := None)
  {
    match e
    case Edited(ps) =>
      // the effect's cleanup clears the old timer; a new one is armed unless loading
      s.(products := ps, timer := if s.isLoading then None else Some(ps))
    case LoadFinished(data) =>
      // loading is over, so the effect arms a save of the loaded list
      s.(products := data, isLoading := false, timer := Some(data))
    case TimerFired(saved) =>
      if s.timer.None? then s
      else s.(timer := None, isSyncing := false, syncError := !saved && remote)
    case Unmounted =>
      s.(timer := None)
  }

  /** A run of events, first to last. */
  function Run(s: SyncState, events: seq<Event>, remote: bool): SyncState
    decreases |events|
  {
    if events == [] then s else Run(Step(s, events[0], remote), events[1..], remote)
  }

  /**
   * What holds between events: nothing is armed while loading, an armed
   * timer always carries the current list, and no save is half done.
   */
  ghost predicate Consistent(s: SyncState)
  {
    && (s.isLoading ==> s.timer.None?)
    && (s.timer.Some? ==> s.timer.value == s.products)
    && !s.isSyncing
  }

  lemma InitialConsistent()
    ensures Consistent(Initial())
  {
  }

  lemma StepKeepsConsistent(s: SyncState, e: Event, remote: bool)
    requires Consistent(s)
    ensures Consistent(Step(s, e, remote))
  {
  }

  /** Every run of events from a consistent state ends in a consistent state. */
  lemma {:induction false} RunKeepsConsistent(s: SyncState, events: seq<Event>, remote: bool)
    requires Consistent(s)
    ensures Consistent(Run(s, events, remote))
    decreases |events|
  {
    if events != [] {
      StepKeepsConsistent(s, events[0], remote);
      RunKeepsConsistent(Step(s, events[0], remote), events[1..], remote);
    }
  }

  /** A burst of edits after loading leaves exactly one save armed, carrying the last list. */
  lemma {:induction false} BurstArmsLast(s: SyncState, events: seq<Event>, remote: bool)
    requires !s.isLoading
    requires events != [] && forall e :: e in events ==> e.Edited?
    ensures Run(s, events, remote).timer == Some(events[|events| - 1].products)
    ensures Run(s, events, remote).products == events[|events| - 1].products
    decreases |events|
  {
    var t := Step(s, events[0], remote);
    if |events| > 1 {
      assert events[1..][|events| - 2] == events[|events| - 1];
      assert forall e :: e in events[1..] ==> e in events;
      BurstArmsLast(t, events[1..], remote);
    }
  }

  /** Edits made while loading arm nothing; the whole run leaves no timer. */
  lemma {:induction false} NoSaveWhileLoading(s: SyncState, events: seq<Event>, remote: bool)
    requires s.isLoading && s.timer.None?
    requires forall e :: e in events ==> e.Edited? || e.TimerFired? || e.Unmounted?
    ensures Run(s, events, remote).timer.None? && Run(s, events, remote).isLoading
    decreases |events|
  {
    if events != [] {
      assert forall e :: e in events[1..] ==> e in events;
      NoSaveWhileLoading(Step(s, events[0], remote), events[1..], remote);
    }
  }

  /** Once a timer has fired, a second expiry does nothing: a burst yields one save. */
  lemma FireOnce(s: SyncState, a: bool, b: bool, remote: bool)
    ensures Step(Step(s, TimerFired(a), remote), TimerFired(b), remote) == Step(s, TimerFired(a), remote)
  {
  }

  /** The error flag is raised only by a failed save while an endpoint is configured. */
  lemma SyncErrorOnlyFromFailedSave(s: SyncState, e: Event, remote: bool)
    requires !s.syncError && Step(s, e, remote).syncError
    ensures e.TimerFired? && !e.saved && remote && s.timer.Some?
  {
  }

  /** The controller of the root screen; the store is its persistence layer. */
  class SaveController {
    const store: InventoryStore
    var products: seq<Product>
    var isLoading: bool
    var isSyncing: bool
    var syncError: bool
    var timer: Option<seq<Product>>

    function State(): SyncState
      reads this
    {
      SyncState(products, isLoading, isSyncing, syncError, timer)
    }

    constructor (store: InventoryStore)
      ensures this.store == store
      ensures State() == Initial()
    {
      this.store := store;
      products := [];
      isLoading := true;
      isSyncing := false;
      syncError := false;
      timer := None;
    }

    /** The mount-time load: the list becomes what the store loads, and a save of it is armed. */
    method Mount(read: RemoteRead, mirrorThrows: bool, readThrows: bool)
      modifies this, store
      ensures var loaded := LoadSpec(store.url, old(store.cell), read, mirrorThrows, readThrows);
        && store.cell == loaded.cell
        && State() == Step(old(State()), LoadFinished(loaded.data), HasRemote(store.url))
    {
      isLoading := true;
      timer := None;
      var data := store.Load(read, mirrorThrows, readThrows);
      products := data;
      isLoading := false;
      timer := Some(products);
    }

    /** A handler replaced the list: cancel the pending save and, unless loading, arm a new one. */
    method Edit(ps: seq<Product>)
      modifies this
      ensures State() == Step(old(State()), Edited(ps), HasRemote(store.url))
    {
      timer := None;
      products := ps;
      if !isLoading {
        timer := Some(ps);
      }
    }

    /**
     * The pending timer expires: the list it captured is saved, and the error
     * flag, cleared as the save starts, is raised if the save failed with an
     * endpoint configured. Without an armed timer nothing happens.
     */
    method Fire(writeThrows: bool, post: PostOutcome)
      modifies this, store
      ensures old(timer).None? ==> State() == old(State()) && store.cell == old(store.cell)
      ensures old(timer).Some? ==>
        && store.cell == SavedCell(old(store.cell), old(timer).value, writeThrows)
        && State() == Step(old(State()), TimerFired(SaveResult(store.url, post)), HasRemote(store.url))
    {
      if timer.Some? {
        var snapshot := timer.value;
        timer := None;
        isSyncing := true;
        syncError := false;
        var success := store.Save(snapshot, writeThrows, post);
        if !success && HasRemote(store.url) {
          syncError := true;
        }
        isSyncing := false;
      }
    }

    /** Teardown: the pending timer is cancelled. */
    method Unmount()
      modifies this
      ensures State() == Step(old(State()), Unmounted, HasRemote(store.url))
    {
      timer := None;
    }
  }

  /**
   * After a fired save the error flag is up exactly when an endpoint is
   * configured and its write threw; the HTTP status plays no part.
   */
  lemma FiredErrorIffPostThrew(s: SyncState, url: string, post: PostOutcome)
    requires s.timer.Some?
    ensures Step(s, TimerFired(SaveResult(url, post)), HasRemote(url)).syncError
            <==> HasRemote(url) && post.PostThrew?
  {
  }

  /**
   * Whatever the remote does, a fired save whose local write succeeds leaves
   * the local key holding the current list.
   */
  lemma FiredSaveIsLocal(s: SyncState, cell: Option<Stored>)
    requires Consistent(s) && s.timer.Some?
    ensures ReadLocal(SavedCell(cell, s.timer.value, false), false) == s.products
  {
  }
}
