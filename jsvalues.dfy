/**
 * JSON values as JavaScript holds them after JSON.parse, with the two pieces
 * of JavaScript semantics the core relies on: truthiness and property
 * assignment on an object.
 */
module JsValues {
  import opened Wrappers

  /** An object keeps its members in insertion order, so serialisation order is not lost. */
  datatype Json =
    | JNull
    | JBool(b: bool)
    | JNumber(n: real)
    | JString(s: string)
    | JArray(items: seq<Json>)
    | JObject(members: seq<(string, Json)>)

  type Members = seq<(string, Json)>

  /** Whether an object has a member named `k`. */
  predicate Has(ms: Members, k: string) {
    exists i :: 0 <= i < |ms| && ms[i].0 == k
  }

  /** Property read `obj[k]`: the first member named `k`, or None for `undefined`. */
  function Get(ms: Members, k: string): (r: Option<Json>)
    ensures r.Some? <==> Has(ms, k)
  {
    if ms == [] then None
    else if ms[0].0 == k then Some(ms[0].1)
    else (assert forall i :: 1 <= i < |ms| ==> ms[i].0 == ms[1..][i - 1].0; Get(ms[1..], k))
  }

  /** Reading a member in the middle of an object: earlier members with other names are passed over. */
  lemma {:induction false} GetAt(ms: Members, i: nat, k: string)
    requires i < |ms| && ms[i].0 == k
    requires forall j :: 0 <= j < i ==> ms[j].0 != k
    ensures Get(ms, k) == Some(ms[i].1)
  {
    if i > 0 {
      GetAt(ms[1..], i - 1, k);
    }
  }

  /** JavaScript truthiness; `undefined` is an absent member, which is falsy too. */
  predicate Truthy(v: Json) {
    match v
    case JNull => false
    case JBool(b) => b
    case JNumber(n) => n != 0.0
    case JString(s) => s != ""
    case JArray(_) => true
    case JObject(_) => true
  }

  /** Property assignment `obj[k] = v`: an existing member keeps its place, a new one goes last. */
  function Put(ms: Members, k: string, v: Json): (r: Members)
    ensures Get(r, k) == Some(v)
    ensures forall k' :: k' != k ==> Get(r, k') == Get(ms, k')
    ensures |r| == if Has(ms, k) then |ms| else |ms| + 1
  {
    if ms == [] then [(k, v)]
    else if ms[0].0 == k then [(k, v)] + ms[1..]
    else
      var rest := Put(ms[1..], k, v);
      assert Has(ms, k) <==> Has(ms[1..], k) by {
        if Has(ms, k) { var i :| 0 <= i < |ms| && ms[i].0 == k; assert ms[1..][i - 1].0 == k; }
        if Has(ms[1..], k) { var i :| 0 <= i < |ms[1..]| && ms[1..][i].0 == k; assert ms[i + 1].0 == k; }
      }
      [ms[0]] + rest
  }

  /** Assigning the value a member already reads as changes nothing. */
  lemma {:induction false} PutSame(ms: Members, k: string, v: Json)
    requires Get(ms, k) == Some(v)
    ensures Put(ms, k, v) == ms
  {
    if ms != [] && ms[0].0 != k {
      PutSame(ms[1..], k, v);
    }
  }

  /** `obj[k] ||= v`: keep a truthy member, otherwise assign `v`. */
  function OrAssign(ms: Members, k: string, v: Json): (r: Members)
    ensures Get(ms, k).Some? && Truthy(Get(ms, k).value) ==> r == ms
    ensures !(Get(ms, k).Some? && Truthy(Get(ms, k).value)) ==> Get(r, k) == Some(v)
    ensures forall k' :: k' != k ==> Get(r, k') == Get(ms, k')
  {
    var cur := Get(ms, k);
    if cur.Some? && Truthy(cur.value) then ms else Put(ms, k, v)
  }

  /** `obj[k] ||= v` leaves an object alone once `obj[k]` is truthy or already `v`. */
  lemma OrAssignSettled(ms: Members, k: string, v: Json)
    requires Get(ms, k) == Some(v) || (Get(ms, k).Some? && Truthy(Get(ms, k).value))
    ensures OrAssign(ms, k, v) == ms
  {
    if !(Get(ms, k).Some? && Truthy(Get(ms, k).value)) {
      PutSame(ms, k, v);
    }
  }

  /** A second `obj[k] ||= v` after the first changes nothing. */
  lemma OrAssignIdempotent(ms: Members, k: string, v: Json)
    ensures OrAssign(OrAssign(ms, k, v), k, v) == OrAssign(ms, k, v)
  {
    var once := OrAssign(ms, k, v);
    if !(Get(ms, k).Some? && Truthy(Get(ms, k).value)) {
      PutSame(once, k, v);
    }
  }

  /** The rest of an object after destructuring `k` out of it (`{ k, ...rest }`): the other members, in order. */
  function Omit(ms: Members, k: string): (r: Members)
    ensures !Has(r, k)
    ensures forall k' :: k' != k ==> Get(r, k') == Get(ms, k')
    ensures |r| <= |ms|
  {
    if ms == [] then []
    else
      var rest := Omit(ms[1..], k);
      if ms[0].0 == k then rest
      else
        assert !Has([ms[0]] + rest, k) by {
          forall i | 0 <= i < |[ms[0]] + rest| ensures ([ms[0]] + rest)[i].0 != k {
            if i > 0 { assert ([ms[0]] + rest)[i] == rest[i - 1]; }
          }
        }
        [ms[0]] + rest
  }
}
