/** `SharedPreferencesUtil`: the sync constants, the key lookup `getObject`
    and the typed write `putObject` into a preferences editor. */
module SharedPreferencesUtil {
  import opened Wrappers
  import opened PrefCodec

  /** Path of a config change made on the companion (phone). */
  const ConfigUpdateCompanionPath: string := "/config_update/companion"
  /** Path of a config change made on the wearable (watch). */
  const ConfigUpdateWearablePath: string := "/config_update/wearable"

  /** A committed preference store, keyed by preference name. */
  type Store = map<string, PrefValue>

  /** A `SharedPreferences.Editor`: writes staged until `commit`. */
  datatype Editor = Editor(pending: map<string, PrefValue>)

  /** A fresh editor, as returned by `edit()`. */
  const NewEditor: Editor := Editor(map[])

  /** The two origin paths differ, so a device can tell its own changes
      from the other device's. */
  lemma OriginPathsDistinct()
    ensures ConfigUpdateCompanionPath != ConfigUpdateWearablePath
  {
  }

  /** What `getObject` returns, as a value: the stored value boxed, or null. */
  function Lookup(store: Store, key: string): Object
  {
    if key in store then Decode(store[key]) else Null
  }

  /** `getObject`: scans the entry set, in the store's unspecified order,
      for the entry whose key equals `key`. */
  method GetObject(store: Store, key: string) returns (value: Object)
    ensures key in store ==> value == Decode(store[key])
    ensures key !in store ==> value == Null
    ensures value == Lookup(store, key)
  {
    value := Null;
    var remaining := store.Keys;
    while remaining != {}
      invariant remaining <= store.Keys
      invariant key in store ==> key in remaining
      decreases remaining
    {
      var k :| k in remaining;
      if k == key {
        value := Decode(store[k]);
        return;
      }
      remaining := remaining - {k};
    }
  }

  /** `putObject`: stages `key := value` when the value is an Integer, String
      or Boolean; any other value, null included, throws and stages nothing. */
  function PutObject(editor: Editor, key: string, value: Object): (r: Result<Editor, Error>)
    ensures r.Success? <==> Supported(value)
    ensures r.Success? ==> key in r.value.pending && Decode(r.value.pending[key]) == value
    ensures r.Success? ==> r.value.pending.Keys == editor.pending.Keys + {key}
    ensures r.Success? ==> forall k :: k in editor.pending && k != key ==> r.value.pending[k] == editor.pending[k]
    ensures r.Failure? ==> r.error == (if value.Null? then NullPointer else IllegalArgument(ClassName(value)))
  {
    match Encode(value)
    case Success(v) => Success(Editor(editor.pending[key := v]))
    case Failure(e) => Failure(e)
  }

  /** `commit`: every staged write lands; keys not staged keep their values. */
  function Commit(store: Store, editor: Editor): (r: Store)
    ensures r.Keys == store.Keys + editor.pending.Keys
    ensures forall k :: k in editor.pending ==> r[k] == editor.pending[k]
    ensures forall k :: k in store && k !in editor.pending ==> r[k] == store[k]
  {
    store + editor.pending
  }

  /** Round trip: after `putObject(key, v)` and `commit`, `getObject(key)`
      returns `v` for every supported `v`, and every other key reads as before. */
  lemma PutCommitGet(store: Store, key: string, value: Object, other: string)
    requires Supported(value)
    requires other != key
    ensures PutObject(NewEditor, key, value).Success?
    ensures Lookup(Commit(store, PutObject(NewEditor, key, value).value), key) == value
    ensures Lookup(Commit(store, PutObject(NewEditor, key, value).value), other) == Lookup(store, other)
  {
  }

  /** A rejected value leaves the store exactly as it was: nothing reaches `commit`. */
  lemma RejectedPutWritesNothing(editor: Editor, key: string, value: Object)
    requires !Supported(value)
    ensures PutObject(editor, key, value).Failure?
    ensures value.Null? ==> PutObject(editor, key, value).error == NullPointer
  {
  }

  /** Every value read back from a store can be put again unchanged, so
      copying an entry from one store to another preserves it. */
  lemma LookupPutsBack(store: Store, key: string, editor: Editor)
    requires key in store
    ensures PutObject(editor, key, Lookup(store, key)).Success?
    ensures PutObject(editor, key, Lookup(store, key)).value == Editor(editor.pending[key := store[key]])
  {
    EncodeDecode(store[key]);
  }
}
