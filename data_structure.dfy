/**
 * The data-structure sample: a vector of i32 filled by pushes, an ordered
 * map from i32 to strings filled by inserts, and the two sums its module
 * init reports over them.
 */
module RustDataStructure {
  import opened Kernel

  /** The exact integer sum of a sequence. */
  function Sum(xs: seq<int>): int
  {
    if xs == [] then 0 else xs[0] + Sum(xs[1..])
  }

  /** `fold(acc, |acc, x| acc.wrapping_add(*x))` over the elements in order. */
  function WrappingFold(acc: i32, xs: seq<i32>): (r: i32)
    ensures (r - (acc + Sum(xs))) % TWO_32 == 0
    ensures InI32(acc + Sum(xs)) ==> r == acc + Sum(xs)
    decreases xs
  {
    if xs == [] then acc
    else
      var next := WrappingAdd(acc, xs[0]);
      var r := WrappingFold(next, xs[1..]);
      CongruentSum(r, next, acc + xs[0], Sum(xs[1..]));
      r
  }

  /** Congruence modulo 2^32 survives adding the same amount to both sides and chaining. */
  lemma CongruentSum(r: int, u: int, v: int, w: int)
    requires (r - (u + w)) % TWO_32 == 0 && (u - v) % TWO_32 == 0
    ensures (r - (v + w)) % TWO_32 == 0
    ensures InI32(r) && InI32(v + w) ==> r == v + w
  {
    var k1 := (r - (u + w)) / TWO_32;
    var k2 := (u - v) / TWO_32;
    assert r - (v + w) == (k1 + k2) * TWO_32;
  }

  /** `fold(acc, |acc, key| acc?.checked_add(*key))` over the keys in order. */
  function CheckedFold(acc: Option<i32>, keys: seq<i32>): (r: Option<i32>)
    ensures acc.None? ==> r.None?
    ensures r.Some? ==> r.value == acc.value + Sum(keys)
    decreases keys
  {
    if keys == [] then acc
    else
      var next := match acc case None => None case Some(a) => CheckedAdd(a, keys[0]);
      CheckedFold(next, keys[1..])
  }

  /** Every running total `acc + keys[0] + ... + keys[k-1]` lies in the i32 range. */
  ghost predicate PartialSumsFit(acc: int, keys: seq<int>)
    ensures PartialSumsFit(acc, keys) ==> InI32(acc + Sum(keys))
  {
    assert keys[..|keys|] == keys;
    forall k :: 0 <= k <= |keys| ==> InI32(acc + Sum(keys[..k]))
  }

  /** The wrapping fold is the exact sum wrapped once into the i32 range. */
  lemma {:induction false} WrappingFoldIsWrappedSum(acc: i32, xs: seq<i32>)
    ensures WrappingFold(acc, xs) == Wrap(acc + Sum(xs))
    decreases xs
  {
    if xs != [] {
      WrappingFoldIsWrappedSum(WrappingAdd(acc, xs[0]), xs[1..]);
      WrapAbsorbs(acc + xs[0], Sum(xs[1..]));
    }
  }

  lemma SumOfPrefixStep(keys: seq<int>, k: nat)
    requires 0 < k <= |keys|
    ensures Sum(keys[..k]) == keys[0] + Sum(keys[1..][..k - 1])
  {
    assert keys[..k][1..] == keys[1..][..k - 1];
  }

  /**
   * The checked fold is `Some(total)` exactly when no running total
   * overflows, and `None` as soon as one does.
   */
  lemma {:induction false} CheckedFoldIsCheckedSum(acc: i32, keys: seq<i32>)
    ensures CheckedFold(Some(acc), keys) ==
      if PartialSumsFit(acc, keys) then Some((acc + Sum(keys)) as i32) else None
    decreases keys
  {
    if keys == [] {
      assert keys[..0] == [];
    } else {
      var rest := keys[1..];
      if InI32(acc + keys[0]) {
        var acc' := acc + keys[0];
        CheckedFoldIsCheckedSum(acc', rest);
        assert keys[..|keys|] == keys;
        if PartialSumsFit(acc', rest) {
          forall k | 0 <= k <= |keys|
            ensures InI32(acc + Sum(keys[..k]))
          {
            if k == 0 {
              assert keys[..0] == [];
            } else {
              SumOfPrefixStep(keys, k);
              assert InI32(acc' + Sum(rest[..k - 1]));
            }
          }
        } else {
          var k :| 0 <= k <= |rest| && !InI32(acc' + Sum(rest[..k]));
          SumOfPrefixStep(keys, k + 1);
          assert !InI32(acc + Sum(keys[..k + 1]));
        }
      } else {
        SumOfPrefixStep(keys, 1);
        assert rest[..0] == [];
        assert !InI32(acc + Sum(keys[..1]));
      }
    }
  }

  /** One node of the red-black tree: a key and the string stored under it. */
  datatype Entry = Entry(key: i32, value: string)

  /**
   * The tree as its in-order sequence of entries: keys strictly increasing,
   * so each key appears once and iteration visits keys in ascending order.
   */
  ghost predicate Ordered(t: seq<Entry>)
  {
    forall i, j :: 0 <= i < j < |t| ==> t[i].key < t[j].key
  }

  /** The keys in iteration order. */
  function Keys(t: seq<Entry>): (ks: seq<i32>)
    ensures |ks| == |t| && forall i :: 0 <= i < |t| ==> ks[i] == t[i].key
  {
    if t == [] then [] else [t[0].key] + Keys(t[1..])
  }

  /** The map an entry sequence represents. */
  function Contents(t: seq<Entry>): map<i32, string>
  {
    if t == [] then map[] else Contents(t[1..])[t[0].key := t[0].value]
  }

  lemma {:induction false} ContentsKeys(t: seq<Entry>)
    ensures Contents(t).Keys == set i | 0 <= i < |t| :: t[i].key
  {
    if t != [] {
      ContentsKeys(t[1..]);
      var s := set i | 0 <= i < |t| :: t[i].key;
      var s' := set i | 0 <= i < |t[1..]| :: t[1..][i].key;
      assert s == s' + {t[0].key} by {
        forall x | x in s ensures x in s' + {t[0].key} {
          var i :| 0 <= i < |t| && t[i].key == x;
          if i > 0 { assert t[1..][i - 1].key == x; }
        }
      }
    }
  }

  /**
   * `try_create_and_insert(k, v)`: put `v` under `k`, replacing the value
   * already stored there if any, and keep the entries ordered.
   */
  function Insert(t: seq<Entry>, k: i32, v: string): (r: seq<Entry>)
    requires Ordered(t)
    ensures Ordered(r)
    ensures Contents(r) == Contents(t)[k := v]
    ensures forall e :: e in r ==> e in t || e == Entry(k, v)
  {
    if t == [] then [Entry(k, v)]
    else if k < t[0].key then
      [Entry(k, v)] + t
    else if k == t[0].key then
      assert Contents(t[1..])[k := v] == Contents(t)[k := v] by {
        ContentsKeys(t[1..]);
      }
      [Entry(k, v)] + t[1..]
    else
      var r' := Insert(t[1..], k, v);
      assert Contents([t[0]] + r') == Contents(r')[t[0].key := t[0].value] by {
        assert ([t[0]] + r')[1..] == r';
      }
      [t[0]] + r'
  }

  /** What the module keeps after init. */
  datatype RustDataStructure = RustDataStructure(numbers: seq<i32>, tree: seq<Entry>)

  /**
   * Module init: push 960 and 110, report their wrapping sum, insert
   * 960 -> "Hello" and 110 -> "Haven", report the checked sum of the keys,
   * and keep the vector and the map. `sum` and `keySum` are the two values
   * the sample logs.
   */
  method Init() returns (s: RustDataStructure, sum: i32, keySum: Option<i32>)
    ensures s.numbers == [960, 110]
    ensures Ordered(s.tree) && Contents(s.tree) == map[960 := "Hello", 110 := "Haven"]
    ensures Keys(s.tree) == [110, 960]
    ensures sum == 1070 && keySum == Some(1070)
  {
    var numbers: seq<i32> := [];
    numbers := numbers + [960];
    numbers := numbers + [110];
    sum := WrappingFold(0, numbers);
    assert sum == 1070 by {
      WrappingFoldIsWrappedSum(0, numbers);
      assert numbers[1..] == [110] && numbers[1..][1..] == [];
      assert Sum(numbers[1..]) == 110;
      assert Sum(numbers) == 1070;
    }

    var m: seq<Entry> := [];
    m := Insert(m, 960, "Hello");
    m := Insert(m, 110, "Haven");
    assert m == [Entry(110, "Haven"), Entry(960, "Hello")];
    keySum := CheckedFold(Some(0), Keys(m));
    assert keySum == Some(1070) by {
      var ks := Keys(m);
      assert ks == [110, 960];
      CheckedFoldIsCheckedSum(0, ks);
      assert ks[..0] == [] && ks[..1] == [110] && ks[..2] == ks;
      assert ks[1..] == [960] && ks[1..][1..] == [];
      assert [110][1..] == [];
      assert PartialSumsFit(0, ks);
    }

    s := RustDataStructure(numbers, m);
  }
}
