/** Sequences sorted by key: the simple list that the red-black tree must agree with. */
module SortedList {
  datatype Option<+T> = None | Some(value: T)

  // What the tree stores. `ref` stands for the user's pointer, `key` for what
  // the compare callback looks at.
  datatype Value = Value(key: int, ref: nat)

  ghost predicate Sorted(s: seq<Value>) {
    forall i, j | 0 <= i < j < |s| :: s[i].key <= s[j].key
  }

  // k separates the values below key from the values not below it
  ghost predicate Splits(s: seq<Value>, key: int, k: int) {
    && 0 <= k <= |s|
    && (forall i | 0 <= i < k :: s[i].key < key)
    && (forall i | k <= i < |s| :: key <= s[i].key)
  }

  // The number of leading values below key.
  function LowerBound(s: seq<Value>, key: int): (k: nat)
    ensures k <= |s|
    ensures Sorted(s) ==> Splits(s, key, k)
  {
    if s == [] || key <= s[0].key then 0 else 1 + LowerBound(s[1..], key)
  }

  function Add(s: seq<Value>, v: Value): seq<Value> {
    var k := LowerBound(s, v.key);
    s[..k] + [v] + s[k..]
  }

  predicate Has(s: seq<Value>, key: int) {
    var k := LowerBound(s, key);
    k < |s| && s[k].key == key
  }

  function Remove(s: seq<Value>, key: int): seq<Value> {
    var k := LowerBound(s, key);
    if Has(s, key) then s[..k] + s[k + 1..] else s
  }

  // what becomes of a value equal to one already there
  datatype Dup = Reject | Allow | Replace

  ghost predicate Unique(s: seq<Value>) {
    forall i, j | 0 <= i < j < |s| :: s[i].key < s[j].key
  }

  // the list after adding v, and the pointer handed back
  function Added(dup: Dup, s: seq<Value>, v: Value): (r: (seq<Value>, Value)) {
    var k := LowerBound(s, v.key);
    if dup == Allow || !Has(s, v.key) then (Add(s, v), v)
    else (if dup == Reject then s else s[k := v], s[k])
  }

  lemma AddSorted(s: seq<Value>, v: Value)
    requires Sorted(s)
    ensures Sorted(Add(s, v)) && |Add(s, v)| == |s| + 1
    ensures Unique(s) && !Has(s, v.key) ==> Unique(Add(s, v))
  {
    var k := LowerBound(s, v.key);
    var r := Add(s, v);
    assert k < |s| && !Has(s, v.key) ==> v.key < s[k].key;
    assert r[k] == v && r[..k] == s[..k] && r[k + 1..] == s[k..];
    forall i, j | 0 <= i < j < |r|
      ensures r[i].key <= r[j].key && (Unique(s) && !Has(s, v.key) ==> r[i].key < r[j].key)
    {
      assert i < k ==> r[i] == r[..k][i] == s[i];
      assert j < k ==> r[j] == r[..k][j] == s[j];
      assert i > k ==> r[i] == r[k + 1..][i - k - 1] == s[i - 1];
      assert j > k ==> r[j] == r[k + 1..][j - k - 1] == s[j - 1];
    }
  }

  lemma {:induction false} LowerBoundAt(s: seq<Value>, key: int, i: nat)
    requires Unique(s) && i < |s| && s[i].key == key
    ensures LowerBound(s, key) == i
  {
    if i > 0 {
      assert s[0].key < s[i].key;
      LowerBoundAt(s[1..], key, i - 1);
    }
  }

  lemma RemoveSorted(s: seq<Value>, key: int)
    requires Sorted(s)
    ensures Sorted(Remove(s, key)) && (Unique(s) ==> Unique(Remove(s, key)))
    ensures |Remove(s, key)| == |s| - if Has(s, key) then 1 else 0
  {
    hide LowerBound;
    var k, r := LowerBound(s, key), Remove(s, key);
    if Has(s, key) {
      forall i | 0 <= i < |r| ensures r[i] == s[if i < k then i else i + 1] {}
      forall i, j | 0 <= i < j < |r| ensures r[i].key <= r[j].key && (Unique(s) ==> r[i].key < r[j].key) {}
    }
  }

  lemma ReplaceSorted(s: seq<Value>, v: Value)
    requires Sorted(s) && Has(s, v.key)
    ensures var r := s[LowerBound(s, v.key) := v]; Sorted(r) && (Unique(s) ==> Unique(r))
  {
  }

  // every list operation keeps the list sorted, and unique unless duplicates are allowed
  lemma AddedSorted(dup: Dup, s: seq<Value>, v: Value)
    requires Sorted(s) && (dup != Allow ==> Unique(s))
    ensures var r := Added(dup, s, v).0; Sorted(r) && (dup != Allow ==> Unique(r))
  {
    AddSorted(s, v);
    if Has(s, v.key) { ReplaceSorted(s, v); }
  }
}
