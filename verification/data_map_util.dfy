/** `DataMapUtil`: the typed write `putObject` into a Wear data map. */
module DataMapUtil {
  import opened Wrappers
  import opened PrefCodec
  import SharedPreferencesUtil

  /** A Wear `DataMap` of preferences: `get(key)` yields a boxed value. */
  type DataMap = map<string, Object>

  /** `putObject` into a data map: Integer, String and Boolean are stored under
      `key` with their type and value; anything else, null included, throws
      and leaves the map as it was. */
  function PutObject(dataMap: DataMap, key: string, value: Object): (r: Result<DataMap, Error>)
    ensures r.Success? <==> Supported(value)
    ensures r.Success? ==> key in r.value && r.value[key] == value
    ensures r.Success? ==> r.value.Keys == dataMap.Keys + {key}
    ensures r.Success? ==> forall k :: k in dataMap && k != key ==> r.value[k] == dataMap[k]
    ensures r.Failure? ==> r.error == (if value.Null? then NullPointer else IllegalArgument(ClassName(value)))
  {
    match Encode(value)
    case Success(v) => Success(dataMap[key := Decode(v)])
    case Failure(e) => Failure(e)
  }

  /** Both putObject variants accept exactly the same values, and what one
      side put into a data map the other side stores with the same type and
      value: a change accepted by the sender is accepted by the receiver. */
  lemma SameAcceptedValues(dataMap: DataMap, editor: SharedPreferencesUtil.Editor, key: string, value: Object)
    ensures PutObject(dataMap, key, value).Success? <==> SharedPreferencesUtil.PutObject(editor, key, value).Success?
    ensures PutObject(dataMap, key, value).Success? ==>
      var received := PutObject(dataMap, key, value).value[key];
      && SharedPreferencesUtil.PutObject(editor, key, received).Success?
      && Decode(SharedPreferencesUtil.PutObject(editor, key, received).value.pending[key]) == value
  {
  }
}
