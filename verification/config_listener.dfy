/** The logic shared by the three inbound listener services
    (`CompanionConfigListenerService` in both wearable modules and
    `WearableConfigListenerService` on the companion): filter data events by
    origin path and apply each accepted payload to a local store. */
module ConfigListener {
  import opened Wrappers
  import opened PrefCodec
  import opened SharedPreferencesUtil
  import opened DataMapUtil
  import opened SyncMessage

  /** What distinguishes one listener copy from another: the one origin path
      it accepts, and whether it skips events whose data item or URI is null
      (only the museum wearable copy does). */
  datatype ListenerConfig = ListenerConfig(acceptPath: string, nullGuard: bool)

  /** Every value of a received preference map has a supported type. */
  predicate AllSupported(prefs: DataMap) {
    forall k :: k in prefs ==> Supported(prefs[k])
  }

  /** The typed form of a fully supported preference map. */
  function Typed(prefs: DataMap): (t: map<string, PrefValue>)
    requires AllSupported(prefs)
    ensures t.Keys == prefs.Keys
    ensures forall k :: k in t ==> Decode(t[k]) == prefs[k]
  {
    map k | k in prefs :: Encode(prefs[k]).value
  }

  /** The store a payload leaves behind, or `None` when applying it throws
      before `commit` (no `"prefs"` map, or a value of an unsupported type):
      all or nothing per payload. */
  function ApplyPayload(store: Store, data: SyncData): (r: Option<Store>)
    ensures r.Some? <==> data.prefs.Some? && AllSupported(data.prefs.value)
    ensures r.Some? ==> r.value.Keys == store.Keys + data.prefs.value.Keys
    ensures r.Some? ==> forall k :: k in data.prefs.value ==> Decode(r.value[k]) == data.prefs.value[k]
    ensures r.Some? ==> forall k :: k in store && k !in data.prefs.value ==> r.value[k] == store[k]
  {
    if data.prefs.Some? && AllSupported(data.prefs.value) then
      Some(Commit(store, Editor(Typed(data.prefs.value))))
    else
      None
  }

  /** The exceptions applying `data` can throw: a NullPointerException when
      there is no `"prefs"` map (`keySet()` on null), otherwise the
      exception putObject raises for one of its entries. */
  predicate PayloadThrows(data: SyncData, e: Error) {
    if data.prefs.None? then e == NullPointer
    else exists k :: k in data.prefs.value && Encode(data.prefs.value[k]) == Failure(e)
  }

  /** `updateSharedPreferences`: put every entry of the `"prefs"` map into
      one editor, then commit. The first unsupported value throws, and the
      editor is dropped uncommitted. */
  method UpdateSharedPreferences(store: Store, data: SyncData) returns (r: Result<Store, Error>)
    ensures r.Success? <==> ApplyPayload(store, data).Some?
    ensures r.Success? ==> r.value == ApplyPayload(store, data).value
    ensures r.Failure? ==> PayloadThrows(data, r.error)
  {
    if data.prefs.None? {
      return Failure(NullPointer);
    }
    var put := PutEntries(data.prefs.value);
    if put.Failure? {
      return Failure(put.error);
    }
    return Success(Commit(store, put.value));
  }

  /** The loop of `updateSharedPreferences`: putObject for every entry of
      `prefs`, in the map's unspecified key order, into a fresh editor. It
      succeeds with the typed form of `prefs` exactly when every value is
      supported; otherwise it throws the exception of an entry putObject
      rejects. */
  method PutEntries(prefs: DataMap) returns (r: Result<Editor, Error>)
    ensures r.Success? <==> AllSupported(prefs)
    ensures r.Success? ==> r.value.pending == Typed(prefs)
    ensures r.Failure? ==> exists k :: k in prefs && Encode(prefs[k]) == Failure(r.error)
  {
    var editor := NewEditor;
    var remaining := prefs.Keys;
    while remaining != {}
      invariant remaining <= prefs.Keys
      invariant editor.pending.Keys == prefs.Keys - remaining
      invariant forall k :: k in editor.pending ==> Decode(editor.pending[k]) == prefs[k]
      decreases remaining
    {
      var k :| k in remaining;
      var put := SharedPreferencesUtil.PutObject(editor, k, prefs[k]);
      if put.Failure? {
        RejectedEntry(prefs, k, put.error);
        return Failure(put.error);
      }
      DoneGrows(prefs.Keys, remaining, editor.pending.Keys, k);
      editor := put.value;
      remaining := remaining - {k};
    }
    PendingIsTyped(prefs, editor.pending);
    return Success(editor);
  }

  /** One entry whose value putObject rejects leaves the map not fully
      supported, and that entry's exception is one the map can throw. */
  lemma RejectedEntry(prefs: DataMap, k: string, e: Error)
    requires k in prefs && Encode(prefs[k]) == Failure(e)
    ensures !AllSupported(prefs)
    ensures exists k' :: k' in prefs && Encode(prefs[k']) == Failure(e)
  {
  }

  /** Moving one key from the remaining keys to the done keys. */
  lemma DoneGrows(all: set<string>, remaining: set<string>, done: set<string>, k: string)
    requires remaining <= all && k in remaining && done == all - remaining
    ensures done + {k} == all - (remaining - {k})
  {
  }

  /** An editor holding a decoded copy of every entry of `prefs` holds
      exactly its typed form. */
  lemma PendingIsTyped(prefs: DataMap, pending: map<string, PrefValue>)
    requires pending.Keys == prefs.Keys
    requires forall k :: k in pending ==> Decode(pending[k]) == prefs[k]
    ensures AllSupported(prefs)
    ensures pending == Typed(prefs)
  {
    forall k | k in prefs
      ensures pending[k] == Typed(prefs)[k]
    {
      DecodeInjective(pending[k], Typed(prefs)[k]);
    }
  }

  /** How a listener treats one event. */
  datatype Disposition =
    | Skip              // not for this listener
    | Apply(data: SyncData) // path matches: apply the payload
    | Crash             // null data item or URI dereferenced

  /** The path test of `onDataChanged`. */
  function Classify(cfg: ListenerConfig, ev: DataEvent): (d: Disposition)
    ensures d.Apply? <==> ev.item.Some? && ev.item.value.uri == Some(cfg.acceptPath)
    ensures d.Crash? <==> !cfg.nullGuard && (ev.item.None? || ev.item.value.uri.None?)
    ensures d.Apply? ==> d.data == ev.item.value.data
  {
    match ev.item
    case None => if cfg.nullGuard then Skip else Crash
    case Some(item) =>
      match item.uri
      case None => if cfg.nullGuard then Skip else Crash
      case Some(path) => if path == cfg.acceptPath then Apply(item.data) else Skip
  }

  /** The result of processing a batch of events: either every event was
      handled, or an exception stopped the loop at event `at`; in both cases
      `store` holds what had been committed. */
  datatype Outcome = Completed(store: Store) | Aborted(store: Store, at: nat)

  /** Reference semantics of the event loop from event `i` on: events in
      order, each accepted payload committed before the next is looked at. */
  function ReplayFrom(cfg: ListenerConfig, store: Store, events: seq<DataEvent>, i: nat): (r: Outcome)
    requires i <= |events|
    ensures r.Aborted? ==> i <= r.at < |events|
    ensures r.Aborted? ==>
      Classify(cfg, events[r.at]).Crash? ||
      (Classify(cfg, events[r.at]).Apply? && ApplyPayload(r.store, Classify(cfg, events[r.at]).data).None?)
    decreases |events| - i
  {
    if i == |events| then Completed(store)
    else
      match Classify(cfg, events[i])
      case Skip => ReplayFrom(cfg, store, events, i + 1)
      case Crash => Aborted(store, i)
      case Apply(data) =>
        match ApplyPayload(store, data)
        case None => Aborted(store, i)
        case Some(next) => ReplayFrom(cfg, next, events, i + 1)
  }

  function Replay(cfg: ListenerConfig, store: Store, events: seq<DataEvent>): Outcome {
    ReplayFrom(cfg, store, events, 0)
  }

  /** `onDataChanged` for one listener copy. `err` is the exception that
      escaped, if any; `out` is the store as committed when the loop ended. */
  method OnDataChanged(cfg: ListenerConfig, store: Store, events: seq<DataEvent>)
    returns (out: Store, err: Option<Error>)
    ensures err.None? <==> Replay(cfg, store, events).Completed?
    ensures out == Replay(cfg, store, events).store
    ensures err.Some? && Classify(cfg, events[Replay(cfg, store, events).at]).Crash? ==> err == Some(NullPointer)
    ensures err.Some? && Classify(cfg, events[Replay(cfg, store, events).at]).Apply? ==>
      PayloadThrows(Classify(cfg, events[Replay(cfg, store, events).at]).data, err.value)
  {
    out := store;
    err := None;
    var i := 0;
    while i < |events|
      invariant i <= |events|
      invariant ReplayFrom(cfg, out, events, i) == Replay(cfg, store, events)
    {
      var d := Classify(cfg, events[i]);
      if d.Crash? {
        err := Some(NullPointer);
        return;
      } else if d.Apply? {
        var r := UpdateSharedPreferences(out, d.data);
        if r.Failure? {
          err := Some(r.error);
          return;
        }
        out := r.value;
      }
      i := i + 1;
    }
  }

  /** Events a listener skips leave its store untouched: a batch made only
      of such events completes with the store unchanged. */
  lemma {:induction false} SkippedEventsChangeNothing(cfg: ListenerConfig, store: Store, events: seq<DataEvent>, i: nat)
    requires i <= |events|
    requires forall j :: i <= j < |events| ==> Classify(cfg, events[j]).Skip?
    ensures ReplayFrom(cfg, store, events, i) == Completed(store)
    decreases |events| - i
  {
    if i < |events| {
      SkippedEventsChangeNothing(cfg, store, events, i + 1);
    }
  }

  /** The value of `key` in the last payload, from event `i` on, that the
      listener would apply, or `None` when no such payload mentions `key`. */
  function LastWrite(cfg: ListenerConfig, events: seq<DataEvent>, i: nat, key: string): Option<Object>
    requires i <= |events|
    decreases |events| - i
  {
    if i == |events| then None
    else
      match LastWrite(cfg, events, i + 1, key)
      case Some(v) => Some(v)
      case None =>
        var d := Classify(cfg, events[i]);
        if d.Apply? && d.data.prefs.Some? && key in d.data.prefs.value then Some(d.data.prefs.value[key])
        else None
  }

  /** Last write wins by processing order: after a batch that completes,
      each key holds its value from the last applied payload that mentions
      it, and keys no applied payload mentions keep their old value. */
  lemma {:induction false} LastWriteWins(cfg: ListenerConfig, store: Store, events: seq<DataEvent>, i: nat, key: string)
    requires i <= |events|
    requires ReplayFrom(cfg, store, events, i).Completed?
    ensures Lookup(ReplayFrom(cfg, store, events, i).store, key) ==
      match LastWrite(cfg, events, i, key)
      case Some(v) => v
      case None => Lookup(store, key)
    decreases |events| - i
  {
    if i < |events| {
      match Classify(cfg, events[i])
      case Skip => LastWriteWins(cfg, store, events, i + 1, key);
      case Crash =>
      case Apply(data) =>
        var next := ApplyPayload(store, data).value;
        LastWriteWins(cfg, next, events, i + 1, key);
    }
  }

  /** An exception ends the batch: events after the failing one are never
      processed, whatever they are. */
  lemma {:induction false} AbortIgnoresLaterEvents(cfg: ListenerConfig, store: Store, events: seq<DataEvent>, i: nat,
                                                   more: seq<DataEvent>)
    requires i <= |events|
    requires ReplayFrom(cfg, store, events, i).Aborted?
    ensures ReplayFrom(cfg, store, events + more, i) == ReplayFrom(cfg, store, events, i)
    decreases |events| - i
  {
    assert (events + more)[i] == events[i];
    match Classify(cfg, events[i])
    case Skip => AbortIgnoresLaterEvents(cfg, store, events, i + 1, more);
    case Crash =>
    case Apply(data) =>
      if ApplyPayload(store, data).Some? {
        AbortIgnoresLaterEvents(cfg, ApplyPayload(store, data).value, events, i + 1, more);
      }
  }

  /** What an aborted batch has committed is exactly what the events before
      the failing one commit on their own: earlier payloads stay committed,
      nothing of the failing payload is. */
  lemma {:induction false} AbortKeepsCommittedPrefix(cfg: ListenerConfig, store: Store, events: seq<DataEvent>, i: nat)
    requires i <= |events|
    requires ReplayFrom(cfg, store, events, i).Aborted?
    ensures ReplayFrom(cfg, store, events[..ReplayFrom(cfg, store, events, i).at], i)
      == Completed(ReplayFrom(cfg, store, events, i).store)
    decreases |events| - i
  {
    var at := ReplayFrom(cfg, store, events, i).at;
    var prefix := events[..at];
    if at != i {
      assert prefix[i] == events[i];
      match Classify(cfg, events[i])
      case Skip =>
        AbortKeepsCommittedPrefix(cfg, store, events, i + 1);
      case Apply(data) =>
        var next := ApplyPayload(store, data).value;
        AbortKeepsCommittedPrefix(cfg, next, events, i + 1);
    }
  }

  /** Delivering the same event twice leaves the same result as delivering
      it once: applying a payload is idempotent. */
  lemma ReplayTwiceIsOnce(cfg: ListenerConfig, store: Store, ev: DataEvent)
    ensures Replay(cfg, store, [ev, ev]) == Replay(cfg, store, [ev])
  {
    var events1, events2 := [ev], [ev, ev];
    assert events1[0] == ev && events2[0] == ev && events2[1] == ev;
    match Classify(cfg, ev)
    case Skip =>
      SkippedEventsChangeNothing(cfg, store, events1, 0);
      SkippedEventsChangeNothing(cfg, store, events2, 0);
    case Crash =>
    case Apply(data) =>
      match ApplyPayload(store, data)
      case None =>
      case Some(once) =>
        var twice := ApplyPayload(once, data).value;
        forall k | k in twice
          ensures k in once && twice[k] == once[k]
        {
          if k in data.prefs.value {
            DecodeInjective(twice[k], once[k]);
          }
        }
        assert twice == once;
        assert ReplayFrom(cfg, once, events1, 1) == Completed(once);
        assert ReplayFrom(cfg, twice, events2, 2) == Completed(twice);
        assert ReplayFrom(cfg, once, events2, 1) == Completed(once);
  }
}
