/**
 * The fixed table of axis pairs and its lookups (src/utils/config.ts).
 */
module Config {
  import opened Wrappers
  import opened Types

  /** One bipolar axis: a key and the key opposite to it. */
  datatype AxisConfig = AxisConfig(key: Key, oppositeKey: Key)

  /** AXES_CONFIG: the eight pairs, in display order. */
  const AxesConfig: seq<AxisConfig> := [
    AxisConfig(Constructivisme, Essentialisme),
    AxisConfig(JusticeRehabilitative, JusticePunitive),
    AxisConfig(Progressisme, Conservatisme),
    AxisConfig(Internationalisme, Nationalisme),
    AxisConfig(Communisme, Capitalisme),
    AxisConfig(Regulation, LaissezFaire),
    AxisConfig(Ecologie, Productivisme),
    AxisConfig(Revolution, Reformisme)
  ]

  /** Both keys of every pair, pair by pair. */
  function PairKeys(axes: seq<AxisConfig>): (keys: seq<Key>)
    ensures |keys| == 2 * |axes|
  {
    if axes == [] then [] else [axes[0].key, axes[0].oppositeKey] + PairKeys(axes[1..])
  }

  /** Pair j of a table contributes positions 2j and 2j+1 of its keys. */
  lemma {:induction false} PairKeysAt(axes: seq<AxisConfig>, j: nat)
    requires j < |axes|
    ensures PairKeys(axes)[2 * j] == axes[j].key
    ensures PairKeys(axes)[2 * j + 1] == axes[j].oppositeKey
  {
    if j > 0 {
      PairKeysAt(axes[1..], j - 1);
    }
  }

  /**
   * AXES_CONFIG lists eight pairs, and each of the sixteen keys stands in
   * exactly one pair, exactly once: the pairs read side by side are the keys
   * in declaration order.
   */
  lemma AxesConfigPartitionsKeys()
    ensures |AxesConfig| == 8
    ensures PairKeys(AxesConfig) == AllKeys
    ensures forall k :: multiset(PairKeys(AxesConfig))[k] == 1
  {
    PairKeysAreAllKeys();
    AllKeysDistinct();
    EachKeyOnce(AllKeys);
  }

  /** A list holding key i at each position i counts every key once. */
  lemma EachKeyOnce(s: seq<Key>)
    requires |s| == 16 && forall i :: 0 <= i < 16 ==> Index(s[i]) == i
    ensures forall k :: multiset(s)[k] == 1
  {
    forall k ensures multiset(s)[k] == 1 {
      var i := Index(k);
      assert AllKeys[Index(s[i])] == s[i];
      MultisetCountOfUnique(s, i);
    }
  }

  lemma PairKeysAreAllKeys()
    ensures PairKeys(AxesConfig) == AllKeys
  {
    var a := AxesConfig;
    assert PairKeys(a[7..]) == AllKeys[14..];
    assert PairKeys(a[6..]) == AllKeys[12..];
    assert PairKeys(a[5..]) == AllKeys[10..];
    assert PairKeys(a[4..]) == AllKeys[8..];
    assert PairKeys(a[3..]) == AllKeys[6..];
    assert PairKeys(a[2..]) == AllKeys[4..];
    assert PairKeys(a[1..]) == AllKeys[2..];
    assert PairKeys(a) == AllKeys;
  }

  /** In a sequence whose only occurrence of s[i] is at i, s[i] is counted once. */
  lemma {:induction false} MultisetCountOfUnique<T>(s: seq<T>, i: nat)
    requires i < |s|
    requires forall j :: 0 <= j < |s| && j != i ==> s[j] != s[i]
    ensures multiset(s)[s[i]] == 1
  {
    var init := s[..|s| - 1];
    assert s == init + [s[|s| - 1]];
    if i == |s| - 1 {
      assert s[i] !in init;
    } else {
      assert init[i] == s[i];
      MultisetCountOfUnique(init, i);
    }
  }

  /** The pair at position j holds the keys at positions 2j and 2j+1 of declaration order. */
  lemma AxisAt(j: nat)
    requires j < |AxesConfig|
    ensures AxesConfig[j].key == AllKeys[2 * j] && AxesConfig[j].oppositeKey == AllKeys[2 * j + 1]
  {
    PairKeysAreAllKeys();
    PairKeysAt(AxesConfig, j);
  }

  /** getCategoryDisplayName: the display name POLITISCALE_CATEGORIES gives a key. */
  function CategoryDisplayName(k: Key): (name: string)
    ensures name == CategoryName(k)
  {
    CategoryName(k)
  }

  /** No two keys share a display name, so tooltip rows can be told apart. */
  lemma DisplayNamesDistinct(a: Key, b: Key)
    requires a != b
    ensures CategoryDisplayName(a) != CategoryDisplayName(b)
  {
    match a
    case Constructivisme => assert CategoryDisplayName(a)[0] == 'C' && CategoryDisplayName(a)[2] == 'n';
    case _ =>
  }

  /** `AXES_CONFIG.find(...)`: the first pair that holds k on either side. */
  function FindAxis(axes: seq<AxisConfig>, k: Key): (r: Option<AxisConfig>)
    ensures r.Some? ==> r.value in axes && (r.value.key == k || r.value.oppositeKey == k)
    ensures r.None? ==> forall a :: a in axes ==> a.key != k && a.oppositeKey != k
  {
    if axes == [] then None
    else if axes[0].key == k || axes[0].oppositeKey == k then Some(axes[0])
    else FindAxis(axes[1..], k)
  }

  /** getOppositeKey: the other key of the pair holding k; None stands for undefined. */
  function OppositeKey(k: Key): (r: Option<Key>)
    ensures r.Some? ==> AxisConfig(k, r.value) in AxesConfig || AxisConfig(r.value, k) in AxesConfig
  {
    match FindAxis(AxesConfig, k)
    case None => None
    case Some(axis) => Some(if axis.key == k then axis.oppositeKey else axis.key)
  }

  /** getOppositeKey maps each pair's key to its opposite and the opposite back to the key. */
  lemma OppositeKeyOfPair(j: nat)
    requires j < |AxesConfig|
    ensures OppositeKey(AxesConfig[j].key) == Some(AxesConfig[j].oppositeKey)
    ensures OppositeKey(AxesConfig[j].oppositeKey) == Some(AxesConfig[j].key)
  {
    var a := AxesConfig[j];
    PairHoldingKeyIsUnique(a.key, j);
    PairHoldingKeyIsUnique(a.oppositeKey, j);
  }

  /** Only the pair at position j mentions the keys of pair j. */
  lemma PairHoldingKeyIsUnique(k: Key, j: nat)
    requires j < |AxesConfig|
    requires AxesConfig[j].key == k || AxesConfig[j].oppositeKey == k
    ensures FindAxis(AxesConfig, k) == Some(AxesConfig[j])
  {
    AxisAt(j);
    KeyAtPosition(2 * j);
    KeyAtPosition(2 * j + 1);
    forall i | 0 <= i < j ensures AxesConfig[i].key != k && AxesConfig[i].oppositeKey != k {
      AxisAt(i);
      KeyAtPosition(2 * i);
      KeyAtPosition(2 * i + 1);
    }
    FindAxisFirst(AxesConfig, k, j);
  }

  /** FindAxis answers the first pair that mentions k. */
  lemma {:induction false} FindAxisFirst(axes: seq<AxisConfig>, k: Key, j: nat)
    requires j < |axes| && (axes[j].key == k || axes[j].oppositeKey == k)
    requires forall i :: 0 <= i < j ==> axes[i].key != k && axes[i].oppositeKey != k
    ensures FindAxis(axes, k) == Some(axes[j])
  {
    if j > 0 {
      FindAxisFirst(axes[1..], k, j - 1);
    }
  }

  lemma KeyAtPosition(m: nat)
    requires m < 16
    ensures Index(AllKeys[m]) == m
  {
    AllKeysDistinct();
  }

  /**
   * getOppositeKey is defined for all sixteen keys, never returns its
   * argument, and is an involution.
   */
  lemma OppositeKeyIsInvolution(k: Key)
    ensures OppositeKey(k).Some?
    ensures OppositeKey(k).value != k
    ensures OppositeKey(OppositeKey(k).value) == Some(k)
  {
    var i := Index(k);
    var j := i / 2;
    AxisAt(j);
    KeyAtPosition(2 * j);
    KeyAtPosition(2 * j + 1);
    if i % 2 == 0 {
      assert AxesConfig[j].key == k;
    } else {
      assert AxesConfig[j].oppositeKey == k;
    }
    OppositeKeyOfPair(j);
  }
}
