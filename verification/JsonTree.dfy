/** Parsed JSON documents. */
module JsonTree {
  import opened Basics

  datatype Member = Member(key: string, value: Json)

  /** A number is an integer or, with a fraction or an exponent, kept as its text. */
  datatype Json =
    | Null
    | Bool(b: bool)
    | Number(n: int)
    | Float(text: string, isZero: bool)
    | Text(s: string)
    | List(items: seq<Json>)
    | Object(members: seq<Member>)

  ghost predicate DistinctKeys(ms: seq<Member>) {
    forall i, k | 0 <= i < k < |ms| :: ms[i].key != ms[k].key
  }

  /** Keys are distinct in every dict, as they are in any parsed document. */
  ghost predicate Proper(j: Json) {
    match j
    case Object(ms) => DistinctKeys(ms) && forall m | m in ms :: Proper(m.value)
    case List(items) => forall x | x in items :: Proper(x)
    case _ => true
  }

  function Keys(ms: seq<Member>): set<string> { set m | m in ms :: m.key }

  /** The value of the first member with the key. */
  function Find(ms: seq<Member>, key: string): Option<Json> {
    if ms == [] then None
    else if ms[0].key == key then Some(ms[0].value)
    else Find(ms[1..], key)
  }

  /** The value of a key, or null when the key is missing. */
  function Get(ms: seq<Member>, key: string): Json {
    var v := Find(ms, key);
    if v.Some? then v.value else Null
  }

  predicate Truthy(j: Json) {
    match j
    case Null => false
    case Bool(b) => b
    case Number(n) => n != 0
    case Float(_, isZero) => !isZero
    case Text(s) => s != ""
    case List(items) => items != []
    case Object(ms) => ms != []
  }

  /** Lists and dicts cannot be looked up in a set. */
  predicate Hashable(j: Json) { !j.List? && !j.Object? }

  /** One of the keys occurs in the value, at any depth. */
  predicate MentionsKey(j: Json, keys: set<string>) {
    match j
    case Object(ms) => exists m | m in ms :: m.key in keys || MentionsKey(m.value, keys)
    case List(items) => exists x | x in items :: MentionsKey(x, keys)
    case _ => false
  }

  /** The printed form of the value contains a star. */
  predicate HasStar(j: Json) {
    match j
    case Object(ms) => exists m | m in ms :: '*' in m.key || HasStar(m.value)
    case List(items) => exists x | x in items :: HasStar(x)
    case Text(s) => '*' in s
    case _ => false
  }
}
