/**
 The JSON values the schema exporter works on. An object is the ordered list of
 its members, as a `serde_json::Map` is when it keeps insertion order.
 */
module Json {
  import opened Text

  datatype Value =
    | Null
    | Bool(b: bool)
    | Number(text: string)
    | Str(s: string)
    | Arr(items: seq<Value>)
    | Obj(members: seq<Member>)

  datatype Member = Member(key: string, value: Value)

  /** `Map::get`. */
  function Get(ms: seq<Member>, key: string): (r: Option<Value>)
    ensures r.Some? <==> exists m :: m in ms && m.key == key
    ensures r.Some? ==> Member(key, r.value) in ms
  {
    if ms == [] then None
    else if ms[0].key == key then Some(ms[0].value)
    else Get(ms[1..], key)
  }

  /** `Map::insert`: replaces the value in place, or appends a new member. */
  function Put(ms: seq<Member>, key: string, value: Value): (r: seq<Member>)
    ensures Get(r, key) == Some(value)
    ensures forall k :: k != key ==> Get(r, k) == Get(ms, k)
    ensures UniqueKeys(ms) ==> UniqueKeys(r)
    ensures forall m :: m in r ==> m.key == key || m in ms
  {
    if ms == [] then [Member(key, value)]
    else if ms[0].key == key then
      var r := [Member(key, value)] + ms[1..];
      assert r[1..] == ms[1..];
      r
    else
      var r := [ms[0]] + Put(ms[1..], key, value);
      assert r[1..] == Put(ms[1..], key, value);
      r
  }

  predicate UniqueKeys(ms: seq<Member>) {
    forall i, j :: 0 <= i < j < |ms| ==> ms[i].key != ms[j].key
  }

  /** No object inside `v` has two members with one key. */
  predicate Distinct(v: Value) {
    (v.Obj? ==> UniqueKeys(v.members)) && forall c :: c in Children(v) ==> Distinct(c)
  }

  lemma {:induction false} GetUnique(ms: seq<Member>, m: Member)
    requires UniqueKeys(ms) && m in ms
    ensures Get(ms, m.key) == Some(m.value)
  {
    if ms[0] != m {
      assert m in ms[1..];
      GetUnique(ms[1..], m);
    }
  }

  /** The member with `key` when `v` is an object: `Value::get`. */
  function Field(v: Value, key: string): (r: Option<Value>)
    ensures r.Some? ==> v.Obj? && Member(key, r.value) in v.members
    ensures r.Some? ==> r.value in Children(v)
  {
    if v.Obj? then
      var r := Get(v.members, key);
      if r.Some? then ChildOf(v, Member(key, r.value)); r else r
    else None
  }

  function Children(v: Value): (cs: seq<Value>)
    ensures forall c :: c in cs ==> c < v
  {
    match v
    case Arr(items) => items
    case Obj(ms) => seq(|ms|, i requires 0 <= i < |ms| => ms[i].value)
    case _ => []
  }

  lemma ChildOf(v: Value, m: Member)
    requires v.Obj? && m in v.members
    ensures m.value in Children(v)
  {
    var i :| 0 <= i < |v.members| && v.members[i] == m;
    assert Children(v)[i] == m.value;
  }
}
