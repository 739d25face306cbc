/** The element replace shared by the gradient demo pages'
    `handleColorChange`: `[...a.slice(0, index), value, ...a.slice(index + 1)]`
    stored under one key of the settings object, every other key copied by
    the spread. Written once over the element type; the two pages differ
    only in what they store. */
module ColorUpdate {
  import opened Wrappers

  /** JavaScript's relative index for `Array.prototype.slice`: a negative
      index counts from the end, and the result is clamped to 0..n. */
  function RelativeIndex(k: int, n: nat): (r: nat)
    ensures r <= n
    ensures 0 <= k <= n ==> r == k
    ensures k > n ==> r == n
    ensures k < 0 ==> r == if n + k < 0 then 0 else n + k
  {
    if k < 0 then (if n + k < 0 then 0 else n + k)
    else if k < n then k
    else n
  }

  /** `a.slice(start, end)`. */
  function Slice<T>(a: seq<T>, start: int, end: int): seq<T>
  {
    var s := RelativeIndex(start, |a|);
    var e := RelativeIndex(end, |a|);
    if s <= e then a[s..e] else []
  }

  /** Cutting at any index, negative or past the end included, and
      putting the two slices side by side gives the array back; the whole
      range is the array itself. */
  lemma SliceSplit<T>(a: seq<T>, k: int)
    ensures Slice(a, 0, k) + Slice(a, k, |a|) == a
    ensures Slice(a, 0, |a|) == a
  {
    var c := RelativeIndex(k, |a|);
    assert Slice(a, 0, k) == a[..c];
    assert Slice(a, k, |a|) == a[c..];
  }

  /** The new array for one key. `a.slice(index + 1)` has no end argument,
      which is the same as an end of `a.length`. */
  function ReplaceAt<T>(a: seq<T>, index: int, value: T): seq<T>
  {
    Slice(a, 0, index) + [value] + Slice(a, index + 1, |a|)
  }

  /** For an index in range the replace is the sequence update: same length,
      `value` at `index`, every other position unchanged. */
  lemma ReplaceInRange<T>(a: seq<T>, index: int, value: T)
    requires 0 <= index < |a|
    ensures ReplaceAt(a, index, value) == a[index := value]
    ensures |ReplaceAt(a, index, value)| == |a|
    ensures ReplaceAt(a, index, value)[index] == value
    ensures forall j :: 0 <= j < |a| && j != index ==> ReplaceAt(a, index, value)[j] == a[j]
  {
    var r := ReplaceAt(a, index, value);
    assert r == a[..index] + [value] + a[index + 1..];
  }

  /** At or past the end, both slices are the whole array and nothing: the
      value is appended. */
  lemma ReplacePastEnd<T>(a: seq<T>, index: int, value: T)
    requires index >= |a|
    ensures ReplaceAt(a, index, value) == a + [value]
  {
    assert Slice(a, 0, index) == a;
  }

  /** Index -1 on a non-empty array keeps all but the last element, then
      the value, then the whole array again. */
  lemma ReplaceMinusOne<T>(a: seq<T>, value: T)
    requires |a| >= 1
    ensures ReplaceAt(a, -1, value) == a[..|a| - 1] + [value] + a
    ensures |ReplaceAt(a, -1, value)| == 2 * |a|
  {
    assert Slice(a, 0, |a|) == a;
  }

  /** Replacing twice with the same value is replacing once, for every
      index up to and including the length. */
  lemma ReplaceIdempotent<T>(a: seq<T>, index: int, value: T)
    requires 0 <= index <= |a|
    ensures ReplaceAt(ReplaceAt(a, index, value), index, value) == ReplaceAt(a, index, value)
  {
    if index < |a| {
      ReplaceInRange(a, index, value);
      ReplaceInRange(a[index := value], index, value);
    } else {
      ReplacePastEnd(a, index, value);
      ReplaceInRange(a + [value], index, value);
    }
  }

  /** Further past the end each call appends again, so the replace is not
      idempotent there. */
  lemma ReplaceFarPastEndAppendsTwice<T>(a: seq<T>, index: int, value: T)
    requires index > |a|
    ensures ReplaceAt(ReplaceAt(a, index, value), index, value) == a + [value, value]
  {
    ReplacePastEnd(a, index, value);
    ReplacePastEnd(a + [value], index, value);
    assert a + [value] + [value] == a + [value, value];
  }

  /** Reading `settings[key]` of a key the object lacks gives `undefined`,
      and `undefined.slice` throws. */
  datatype Error = TypeError

  /** The whole `handleColorChange` update of the settings object. */
  function UpdateKey<T>(m: map<string, seq<T>>, key: string, index: int, value: T): (r: Result<map<string, seq<T>>, Error>)
    ensures r.Failure? <==> key !in m
    ensures r.Success? ==> r.value.Keys == m.Keys
    ensures r.Success? ==> r.value[key] == ReplaceAt(m[key], index, value)
    ensures r.Success? ==> forall k :: k in m && k != key ==> r.value[k] == m[k]
  {
    if key in m then Success(m[key := ReplaceAt(m[key], index, value)]) else Failure(TypeError)
  }

  /** The same update applied twice is the update applied once. */
  lemma UpdateIdempotent<T>(m: map<string, seq<T>>, key: string, index: int, value: T)
    requires key in m && 0 <= index <= |m[key]|
    ensures UpdateKey(UpdateKey(m, key, index, value).value, key, index, value) == UpdateKey(m, key, index, value)
  {
    ReplaceIdempotent(m[key], index, value);
    var once := UpdateKey(m, key, index, value).value;
    assert once[key := ReplaceAt(once[key], index, value)] == once;
  }

  /** One colour control event: the key its control was given, the channel
      index it reports, and the value. */
  datatype Change<T> = Change(key: string, index: int, value: T)

  /** The settings after a sequence of changes. A change that throws leaves
      the settings as they were. */
  function ApplyAll<T>(m: map<string, seq<T>>, cs: seq<Change<T>>): map<string, seq<T>>
    decreases |cs|
  {
    if cs == [] then m
    else
      match UpdateKey(m, cs[0].key, cs[0].index, cs[0].value)
      case Success(m') => ApplyAll(m', cs[1..])
      case Failure(_) => ApplyAll(m, cs[1..])
  }

  /** Every key is present and holds a three-channel colour. */
  predicate ThreeChannels<T>(m: map<string, seq<T>>, keys: set<string>)
  {
    m.Keys == keys && forall k :: k in m ==> |m[k]| == 3
  }

  /** What the colour controls emit: one of the page's keys, channel 0, 1
      or 2. */
  predicate Emitted<T>(c: Change<T>, keys: set<string>)
  {
    c.key in keys && 0 <= c.index < 3
  }

  /** An emitted change on three-channel settings never throws and keeps
      them three-channel. */
  lemma EmittedChangeSucceeds<T>(m: map<string, seq<T>>, keys: set<string>, c: Change<T>)
    requires ThreeChannels(m, keys) && Emitted(c, keys)
    ensures UpdateKey(m, c.key, c.index, c.value).Success?
    ensures ThreeChannels(UpdateKey(m, c.key, c.index, c.value).value, keys)
  {
    ReplaceInRange(m[c.key], c.index, c.value);
  }

  /** So does any sequence of them. */
  lemma {:induction false} ApplyAllKeepsThreeChannels<T>(m: map<string, seq<T>>, keys: set<string>, cs: seq<Change<T>>)
    requires ThreeChannels(m, keys)
    requires forall i :: 0 <= i < |cs| ==> Emitted(cs[i], keys)
    ensures ThreeChannels(ApplyAll(m, cs), keys)
    decreases |cs|
  {
    if cs != [] {
      EmittedChangeSucceeds(m, keys, cs[0]);
      ApplyAllKeepsThreeChannels(UpdateKey(m, cs[0].key, cs[0].index, cs[0].value).value, keys, cs[1..]);
    }
  }
}
