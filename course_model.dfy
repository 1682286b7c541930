/**
 * The course record as the store and the home page see it, and the body of
 * the `/api/courses` response: a JSON object mapping each course id to its
 * course, read back as a list by `Object.values`.
 */
module CourseModel {

  /** A course, reduced to the fields the store and the home page touch. */
  datatype Course = Course(
    id: int,
    category: string,
    description: string,
    longDescription: string)

  /**
   * A canonical array index: an integer key below 2^32 - 1. JavaScript
   * enumerates such keys before all others, in ascending numeric order.
   */
  type ArrayIndex = k: nat | k < 0xFFFF_FFFF

  /**
   * The `payload` object of the response. Its keys are course ids written
   * as array indices, so `Object.values` lists them in ascending numeric
   * order whatever order the server sent them in.
   */
  type Payload = map<ArrayIndex, Course>

  /** The smallest element of a non-empty set of keys. */
  function MinKey(keys: set<nat>): (m: nat)
    requires keys != {}
    ensures m in keys
    ensures forall k :: k in keys ==> m <= k
  {
    MinKeyExists(keys);
    var m :| m in keys && forall k :: k in keys ==> m <= k;
    m
  }

  lemma MinKeyExists(keys: set<nat>)
    requires keys != {}
    ensures exists m :: m in keys && forall k :: k in keys ==> m <= k
  {
    var m := LeastKey(keys);
  }

  lemma LeastKey(keys: set<nat>) returns (m: nat)
    requires keys != {}
    ensures m in keys
    ensures forall k :: k in keys ==> m <= k
    decreases keys
  {
    var x :| x in keys;
    var rest := keys - {x};
    if rest == {} {
      assert keys == {x};
      m := x;
    } else {
      var y := LeastKey(rest);
      m := if x <= y then x else y;
      forall k | k in keys ensures m <= k {
        if k != x { assert k in rest; }
      }
    }
  }

  /**
   * The keys in the order `Object.values` visits them: strictly ascending,
   * each key of the set exactly once.
   */
  function SortedKeys(keys: set<nat>): (r: seq<nat>)
    ensures |r| == |keys|
    ensures forall k :: k in keys <==> k in r
    ensures forall i, j :: 0 <= i < j < |r| ==> r[i] < r[j]
    decreases keys
  {
    if keys == {} then []
    else
      var m := MinKey(keys);
      [m] + SortedKeys(keys - {m})
  }

  /**
   * `Object.values(payload)`: one entry per key, in ascending key order.
   * Entry i is the value at the i-th smallest key.
   */
  function ObjectValues(payload: Payload): (r: seq<Course>)
    ensures |r| == |payload|
    ensures forall i :: 0 <= i < |r| ==>
              SortedKeys(payload.Keys)[i] in payload && r[i] == payload[SortedKeys(payload.Keys)[i]]
    ensures forall k :: k in payload ==> payload[k] in r
    ensures forall x :: x in r ==> x in payload.Values
  {
    var keys := SortedKeys(payload.Keys);
    KeysInPayload(payload, keys);
    var r := seq(|keys|, i requires 0 <= i < |keys| => payload[keys[i]]);
    ValuesAtKeys(payload, keys, r);
    r
  }

  lemma KeysInPayload(payload: Payload, keys: seq<nat>)
    requires forall k :: k in payload.Keys <==> k in keys
    ensures forall i :: 0 <= i < |keys| ==> keys[i] in payload
  {
    forall i | 0 <= i < |keys| ensures keys[i] in payload {
      assert keys[i] in keys;
    }
  }

  lemma ValuesAtKeys(payload: Payload, keys: seq<nat>, r: seq<Course>)
    requires forall k :: k in payload.Keys <==> k in keys
    requires forall i :: 0 <= i < |keys| ==> keys[i] in payload
    requires |r| == |keys|
    requires forall i :: 0 <= i < |keys| ==> r[i] == payload[keys[i]]
    ensures forall k :: k in payload ==> payload[k] in r
    ensures forall x :: x in r ==> x in payload.Values
  {
    forall k | k in payload ensures payload[k] in r {
      var i :| 0 <= i < |keys| && keys[i] == k;
      assert r[i] == payload[k];
    }
    forall x | x in r ensures x in payload.Values {
      var i :| 0 <= i < |r| && r[i] == x;
    }
  }

  /** The keys of the set that are smaller than `k`. */
  function KeysBelow(keys: set<nat>, k: nat): set<nat> {
    set j | j in keys && j < k
  }

  lemma Ascending(s: seq<nat>, a: nat, b: nat)
    requires forall i, j :: 0 <= i < j < |s| ==> s[i] < s[j]
    requires a <= b < |s|
    ensures s[a] <= s[b]
  {
    if a < b {
      assert s[a] < s[b];
    }
  }

  /** The keys listed in the first `n` entries of `s`. */
  function Prefix(s: seq<nat>, n: nat): set<nat>
    requires n <= |s|
  {
    set i | 0 <= i < n :: s[i]
  }

  lemma {:induction false} PrefixSize(s: seq<nat>, n: nat)
    requires n <= |s|
    requires forall i, j :: 0 <= i < j < |s| ==> s[i] < s[j]
    ensures |Prefix(s, n)| == n
  {
    if n > 0 {
      PrefixSize(s, n - 1);
      assert Prefix(s, n) == Prefix(s, n - 1) + {s[n - 1]};
      assert s[n - 1] !in Prefix(s, n - 1);
    }
  }

  /**
   * In an ascending enumeration of a set, a key stands at the position given
   * by the number of smaller keys.
   */
  lemma RankInAscending(keys: set<nat>, s: seq<nat>, k: nat)
    requires forall x :: x in keys <==> x in s
    requires forall i, j :: 0 <= i < j < |s| ==> s[i] < s[j]
    requires k in keys
    ensures |KeysBelow(keys, k)| < |s|
    ensures s[|KeysBelow(keys, k)|] == k
  {
    var idx :| 0 <= idx < |s| && s[idx] == k;
    var below := KeysBelow(keys, k);
    forall j | j in below ensures j in Prefix(s, idx) {
      var t :| 0 <= t < |s| && s[t] == j;
      if idx <= t {
        Ascending(s, idx, t);
      }
      assert t < idx;
    }
    forall j | j in Prefix(s, idx) ensures j in below {
      var t :| 0 <= t < idx && s[t] == j;
    }
    assert below == Prefix(s, idx);
    PrefixSize(s, idx);
  }

  /**
   * Ordering, key by key: the value stored under key `k` stands in
   * `Object.values` at the position given by the number of smaller keys.
   * With the length, this fixes every entry of the list.
   */
  lemma ObjectValuesInKeyOrder(payload: Payload, k: ArrayIndex)
    requires k in payload
    ensures |KeysBelow(payload.Keys, k)| < |ObjectValues(payload)|
    ensures ObjectValues(payload)[|KeysBelow(payload.Keys, k)|] == payload[k]
  {
    RankInAscending(payload.Keys, SortedKeys(payload.Keys), k);
  }
}
